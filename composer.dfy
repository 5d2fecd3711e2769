/** The message composer: the input text and three parallel attachment
    lists: `image` holds base 64 payloads, `contextImage` the matching
    data URLs shown as previews, `fileName` the names of the picked files.
    A PDF is sent to a native converter as base 64 and comes back as one
    image per page; any other file is read as a data URL. */
module Composer {
  import opened Util
  import opened Text
  import opened Base64

  /** The prefix every preview entry carries before its payload. */
  const PreviewPrefix := "data:image/png;base64,"
  const PdfType := "application/pdf"
  /** Arrays are objects and so always truthy in JavaScript: `!image` is
      false even for an empty list. */
  const ListTruthy := true
  const Bullet := " \U{2022} "

  datatype File = File(name: string, mimeType: string, bytes: seq<byte>)

  /** What picking files starts. */
  datatype FileAction =
    | NoFile
    | ConvertPdf(pdfBase64: string, name: string)
    | ReadDataUrl(name: string)

  /** `arrayBufferToBase64`: every byte becomes the character with that code,
      and the resulting binary string is passed to `btoa`. */
  method ArrayBufferToBase64(bytes: seq<byte>) returns (r: string)
    ensures r == Encode(bytes)
    ensures |r| == 4 * ((|bytes| + 2) / 3)
  {
    var binary := "";
    var i := 0;
    while i < |bytes|
      invariant 0 <= i <= |bytes|
      invariant binary == Latin1(bytes[..i])
    {
      binary := binary + [bytes[i] as char];
      assert bytes[..i + 1] == bytes[..i] + [bytes[i]];
      i := i + 1;
    }
    assert bytes[..i] == bytes;
    BtoaLatin1(bytes);
    r := Btoa(binary).value;
  }

  /** The first picked file decides: nothing without a file, a conversion
      request for a PDF, a data-URL read otherwise. */
  function FileActionOf(files: seq<File>): (a: FileAction)
    ensures files == [] <==> a == NoFile
    ensures a.ConvertPdf? <==> files != [] && files[0].mimeType == PdfType
    ensures a.ConvertPdf? ==> a.name == files[0].name && Decode(a.pdfBase64) == Some(files[0].bytes)
    ensures a.ReadDataUrl? ==> a.name == files[0].name
  {
    if files == [] then NoFile
    else if files[0].mimeType == PdfType then
      DecodeEncode(files[0].bytes);
      ConvertPdf(Encode(files[0].bytes), files[0].name)
    else ReadDataUrl(files[0].name)
  }

  /** The data after the first comma of a data URL and before any further
      comma, `result.split(",")[1]`. */
  function Payload(dataUrl: string): (p: string)
    requires ',' in dataUrl
    ensures ',' !in p
    ensures exists k :: 0 <= k < |dataUrl| && dataUrl[k] == ',' && ',' !in dataUrl[..k] && p <= dataUrl[k + 1..]
    ensures var k := IndexOf(dataUrl, ','); p == dataUrl[k + 1..] || p + "," <= dataUrl[k + 1..]
  {
    var pieces := Split(dataUrl, ',');
    PayloadFollowsFirstComma(dataUrl);
    pieces[1]
  }

  /** A data URL with a comma splits into at least two pieces; the second
      starts right after the first comma and runs to the end or to the
      next comma. */
  lemma PayloadFollowsFirstComma(dataUrl: string)
    requires ',' in dataUrl
    ensures |Split(dataUrl, ',')| >= 2
    ensures var k := IndexOf(dataUrl, ','); Split(dataUrl, ',')[1] <= dataUrl[k + 1..]
    ensures var k := IndexOf(dataUrl, ',');
      Split(dataUrl, ',')[1] == dataUrl[k + 1..] || Split(dataUrl, ',')[1] + "," <= dataUrl[k + 1..]
  {
    var k := IndexOf(dataUrl, ',');
    var rest := dataUrl[k + 1..];
    var pieces := Split(rest, ',');
    assert Split(dataUrl, ',') == [dataUrl[..k]] + pieces;
    JoinStartsWithFirst(pieces, ',');
    if ',' in rest {
      var j := IndexOf(rest, ',');
      assert pieces[0] == rest[..j];
      assert rest[..j] + "," == rest[..j + 1];
    }
  }

  lemma JoinStartsWithFirst(pieces: seq<string>, c: char)
    requires |pieces| >= 1
    ensures pieces[0] <= Join(pieces, c)
  {
  }

  /** The preview entries for a list of payloads. */
  function Previews(payloads: seq<string>): (r: seq<string>)
    ensures |r| == |payloads|
    ensures forall i :: 0 <= i < |payloads| ==> r[i] == PreviewPrefix + payloads[i]
  {
    seq(|payloads|, i requires 0 <= i < |payloads| => PreviewPrefix + payloads[i])
  }

  /** The invariant of the two image lists: position by position, the
      preview is the payload behind the data-URL prefix. */
  predicate Paired(image: seq<string>, contextImage: seq<string>)
  {
    |image| == |contextImage| && forall i :: 0 <= i < |image| ==> contextImage[i] == PreviewPrefix + image[i]
  }

  /** `prev.filter((_, i) => i !== index)`: drops the entry at `index`, and
      nothing when no entry has that index. */
  function RemoveAt(s: seq<string>, index: int): (r: seq<string>)
    ensures 0 <= index < |s| ==> |r| == |s| - 1
    ensures 0 <= index < |s| ==> forall i :: 0 <= i < index ==> r[i] == s[i]
    ensures 0 <= index < |s| ==> forall i :: index <= i < |r| ==> r[i] == s[i + 1]
    ensures !(0 <= index < |s|) ==> r == s
  {
    if 0 <= index < |s| then s[..index] + s[index + 1..] else s
  }

  /** Removal keeps the two image lists paired, and so does appending paired
      entries. */
  lemma PairedPreserved(image: seq<string>, contextImage: seq<string>, index: int, payloads: seq<string>)
    requires Paired(image, contextImage)
    ensures Paired(RemoveAt(image, index), RemoveAt(contextImage, index))
    ensures Paired(image + payloads, contextImage + Previews(payloads))
  {
  }

  /** A removal takes out exactly one entry, and nothing else, when the index exists. */
  lemma RemoveAtMultiset(s: seq<string>, index: int)
    requires 0 <= index < |s|
    ensures multiset(RemoveAt(s, index)) + multiset{s[index]} == multiset(s)
  {
    assert s == s[..index] + [s[index]] + s[index + 1..];
  }

  /** `(!input.trim() && !image) || loading`. */
  function SendDisabled(input: string, loading: bool): bool
  {
    (Trim(input) == "" && !ListTruthy) || loading
  }

  /** Because a list is always truthy, the send button is disabled exactly
      while a reply is loading, whatever the input and attachments. */
  lemma SendDisabledIffLoading(input: string, loading: bool)
    ensures SendDisabled(input, loading) <==> loading
  {
  }

  /** The attachment part of the helper line, "image" in the singular for one. */
  function ImagesLabel(imageCount: nat): string
  {
    Decimal(imageCount) + " image" + (if imageCount > 1 then "s" else "") + " attached"
  }

  /** One image is "1 image attached"; more are "<k> images attached". */
  lemma ImagesLabelNumber(imageCount: nat)
    ensures imageCount == 1 ==> ImagesLabel(imageCount) == "1 image attached"
    ensures imageCount > 1 ==> ImagesLabel(imageCount) == Decimal(imageCount) + " images attached"
  {
    if imageCount == 1 {
      assert Decimal(1) == "1";
    }
  }

  /** The helper line under the composer: the character count, a bullet when
      both parts are shown, and the attachment count. Absent when there is
      neither input nor an image. */
  function HelperText(inputLength: nat, imageCount: nat): (r: Option<string>)
    ensures r.None? <==> inputLength == 0 && imageCount == 0
    ensures inputLength > 0 && imageCount == 0 ==> r == Some(Decimal(inputLength) + " characters")
    ensures inputLength == 0 && imageCount > 0 ==> r == Some(ImagesLabel(imageCount))
    ensures inputLength > 0 && imageCount > 0 ==> r == Some(Decimal(inputLength) + " characters" + Bullet + ImagesLabel(imageCount))
  {
    if inputLength == 0 && imageCount == 0 then None
    else
      assert forall t: string :: t + "" == t && "" + t == t;
      Some(
      (if inputLength > 0 then Decimal(inputLength) + " characters" else "")
      + (if inputLength > 0 && imageCount > 0 then Bullet else "")
      + (if imageCount > 0 then ImagesLabel(imageCount) else ""))
  }

  class Composer {
    var input: string
    var image: seq<string>
    var contextImage: seq<string>
    var fileName: seq<string>

    predicate Valid()
      reads this
    {
      Paired(image, contextImage)
    }

    constructor ()
      ensures input == "" && image == [] && contextImage == [] && fileName == []
      ensures Valid()
    {
      input := "";
      image := [];
      contextImage := [];
      fileName := [];
    }

    /** Typing in the text area. */
    method SetInput(text: string)
      modifies this`input
      ensures input == text
    {
      input := text;
    }

    /** `handleFileInput`, up to the asynchronous part: the files picked say
      what is started; the lists change only when the result arrives. */
    method SelectFiles(files: seq<File>) returns (action: FileAction)
      ensures action == FileActionOf(files)
    {
      if |files| == 0 {
        return NoFile;
      }
      var file := files[0];
      if file.mimeType == PdfType {
        var base64 := ArrayBufferToBase64(file.bytes);
        action := ConvertPdf(base64, file.name);
      } else {
        action := ReadDataUrl(file.name);
      }
    }

    /** The converter returns one PNG per page: every page is added to both
      image lists, but the file name only once. */
    method PdfPagesArrive(pages: seq<string>, name: string)
      modifies this`image, this`contextImage, this`fileName
      ensures image == old(image) + pages
      ensures contextImage == old(contextImage) + Previews(pages)
      ensures fileName == old(fileName) + [name]
      ensures old(Valid()) ==> Valid()
    {
      var k := 0;
      while k < |pages|
        invariant 0 <= k <= |pages|
        invariant image == old(image) + pages[..k]
        invariant contextImage == old(contextImage) + Previews(pages[..k])
        invariant fileName == old(fileName)
      {
        assert pages[..k + 1] == pages[..k] + [pages[k]];
        assert Previews(pages[..k + 1]) == Previews(pages[..k]) + [PreviewPrefix + pages[k]];
        image := image + [pages[k]];
        contextImage := contextImage + [PreviewPrefix + pages[k]];
        k := k + 1;
      }
      assert pages[..k] == pages;
      fileName := fileName + [name];
    }

    /** The reader's data URL arrives for a file that is not a PDF: its
      payload is added to both image lists and its name to the names. */
    method DataUrlLoaded(dataUrl: string, name: string)
      requires ',' in dataUrl
      modifies this`image, this`contextImage, this`fileName
      ensures image == old(image) + [Payload(dataUrl)]
      ensures contextImage == old(contextImage) + [PreviewPrefix + Payload(dataUrl)]
      ensures fileName == old(fileName) + [name]
      ensures old(Valid()) ==> Valid()
    {
      var base64 := Split(dataUrl, ',')[1];
      image := image + [base64];
      contextImage := contextImage + [PreviewPrefix + base64];
      fileName := fileName + [name];
    }

    /** `removeImage`: the entry at `index` leaves all three lists. */
    method RemoveImage(index: int)
      modifies this`image, this`contextImage, this`fileName
      ensures image == RemoveAt(old(image), index)
      ensures contextImage == RemoveAt(old(contextImage), index)
      ensures fileName == RemoveAt(old(fileName), index)
      ensures old(Valid()) ==> Valid()
    {
      image := RemoveAt(image, index);
      contextImage := RemoveAt(contextImage, index);
      fileName := RemoveAt(fileName, index);
    }

    /** `handleSend`: its guard always holds, so it always hands over the
      trimmed input and the payloads, then clears the input and the lists. */
    method Send() returns (text: string, images: seq<string>)
      modifies this
      ensures text == Trim(old(input)) && images == old(image)
      ensures input == "" && image == [] && contextImage == [] && fileName == []
      ensures Valid()
    {
      if Trim(input) != "" || ListTruthy {
        text, images := Trim(input), image;
        input := "";
        image := [];
        contextImage := [];
        fileName := [];
      }
    }

    /** `handleKeyDown`: Enter without Shift sends, and any other key leaves
      the composer alone. */
    method KeyDown(key: string, shift: bool) returns (sent: Option<(string, seq<string>)>)
      modifies this
      ensures key == "Enter" && !shift ==> sent == Some((Trim(old(input)), old(image)))
      ensures key == "Enter" && !shift ==> input == "" && image == [] && contextImage == [] && fileName == []
      ensures !(key == "Enter" && !shift) ==> sent == None
      ensures !(key == "Enter" && !shift) ==> input == old(input) && image == old(image)
      ensures !(key == "Enter" && !shift) ==> contextImage == old(contextImage) && fileName == old(fileName)
    {
      sent := None;
      if key == "Enter" && !shift {
        var text, images := Send();
        sent := Some((text, images));
      }
    }
  }
}
