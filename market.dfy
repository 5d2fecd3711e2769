/** The agent marketplace: a catalogue of agents filtered by a search query
    and a category, shown as a featured list and a regular list. An agent
    bound to a model is installed exactly when the inference server lists
    that model; an agent without a model has an installed flag that the
    toggle simply flips. */
module Market {
  import opened Util
  import opened Text

  /** An agent of the catalogue. `featured` is false where the record leaves
      it out; `model` is the model name the agent stands for, if any. */
  datatype Agent = Agent(
    id: string,
    name: string,
    description: string,
    category: string,
    downloads: string,
    tags: seq<string>,
    isInstalled: bool,
    featured: bool,
    model: Option<string>)

  const AllCategories := "All"

  const Categories: seq<string> := ["All", "Development", "Creative", "Communication", "Analytics", "Productivity"]

  const InitialAgents: seq<Agent> := [
    Agent("1", "TinyLlama", "Kompaktes Llama3-Modell für schnelle und ressourcensparende Aufgaben.",
      "Development", "2.1K", ["Llama", "Tiny", "Efficient"], false, false, Some("tinyllama:latest")),
    Agent("2", "DeepSeek Coder", "Leistungsstarkes Coding-Modell für komplexe Programmieraufgaben.",
      "Development", "3.8K", ["Coding", "DeepSeek", "AI"], false, false, Some("deepseek-coder:latest")),
    Agent("3", "Qwen2.5-Coder 0.5B", "Kleines, effizientes Qwen2.5-Modell für Coding-Aufgaben und schnelle Inferenz.",
      "Development", "1.2K", ["Qwen", "Coding", "Efficient"], false, false, Some("qwen2.5-coder:0.5b"))
  ]

  /** JavaScript truthiness of `agent.model`: present and not "". */
  predicate HasModel(a: Agent)
  {
    a.model.Some? && a.model.value != ""
  }

  /** Some tag of the agent contains the lowercased query, ignoring case. */
  predicate TagMatches(a: Agent, query: string)
  {
    exists i :: 0 <= i < |a.tags| && Contains(Lower(a.tags[i]), Lower(query))
  }

  /** The search part of the filter: name, description or a tag contains
      the query, ignoring ASCII case. */
  predicate MatchesSearch(a: Agent, query: string)
  {
    Contains(Lower(a.name), Lower(query)) || Contains(Lower(a.description), Lower(query)) || TagMatches(a, query)
  }

  /** The category part of the filter. */
  predicate MatchesCategory(a: Agent, category: string)
  {
    category == AllCategories || a.category == category
  }

  predicate Passes(a: Agent, query: string, category: string)
  {
    MatchesSearch(a, query) && MatchesCategory(a, category)
  }

  /** `filteredAgents`: the agents passing both parts of the filter, in order. */
  function FilteredAgents(agents: seq<Agent>, query: string, category: string): (r: seq<Agent>)
    ensures forall i :: 0 <= i < |r| ==> r[i] in agents && MatchesSearch(r[i], query) && MatchesCategory(r[i], category)
    ensures forall i :: 0 <= i < |agents| && MatchesSearch(agents[i], query) && MatchesCategory(agents[i], category) ==> agents[i] in r
    ensures Subsequence(r, agents)
  {
    Filter(agents, a => Passes(a, query, category))
  }

  /** With an empty query and the "All" category every agent is listed. */
  lemma EmptyFilterListsAll(agents: seq<Agent>)
    ensures FilteredAgents(agents, "", AllCategories) == agents
  {
    forall i | 0 <= i < |agents|
      ensures Passes(agents[i], "", AllCategories)
    {
      assert Lower("") == "";
      ContainsEmpty(Lower(agents[i].name));
    }
    FilterAll(agents, a => Passes(a, "", AllCategories));
  }

  predicate IsFeatured(a: Agent)
  {
    a.featured
  }

  predicate IsRegular(a: Agent)
  {
    !a.featured
  }

  /** `featuredAgents`. */
  function Featured(agents: seq<Agent>): (r: seq<Agent>)
    ensures forall i :: 0 <= i < |r| ==> r[i].featured
  {
    Filter(agents, IsFeatured)
  }

  /** `regularAgents`. */
  function Regular(agents: seq<Agent>): (r: seq<Agent>)
    ensures forall i :: 0 <= i < |r| ==> !r[i].featured
  {
    Filter(agents, IsRegular)
  }

  /** The featured and the regular lists are disjoint, each keeps the order
      of the filtered list, and together they hold every filtered agent
      exactly as often as the filtered list does. */
  lemma FeaturedRegularPartition(filtered: seq<Agent>)
    ensures forall i, j :: 0 <= i < |Featured(filtered)| && 0 <= j < |Regular(filtered)| ==> Featured(filtered)[i] != Regular(filtered)[j]
    ensures Subsequence(Featured(filtered), filtered) && Subsequence(Regular(filtered), filtered)
    ensures multiset(Featured(filtered)) + multiset(Regular(filtered)) == multiset(filtered)
    ensures |Featured(filtered)| + |Regular(filtered)| == |filtered|
  {
    FilterPartition(filtered, IsFeatured, IsRegular);
  }

  /** Marking one agent as installed or not from the server's model list:
      an agent with a model is installed exactly when the list names it. */
  function Synced(a: Agent, models: seq<string>): (r: Agent)
    ensures HasModel(a) ==> r.isInstalled == (a.model.value in models)
    ensures !HasModel(a) ==> r == a
    ensures r.(isInstalled := a.isInstalled) == a
  {
    if HasModel(a) then a.(isInstalled := a.model.value in models) else a
  }

  /** The installed-flag synchronisation after the server lists its models. */
  function Sync(agents: seq<Agent>, models: seq<string>): (r: seq<Agent>)
    ensures |r| == |agents|
    ensures forall i :: 0 <= i < |agents| ==> r[i] == Synced(agents[i], models)
  {
    seq(|agents|, i requires 0 <= i < |agents| => Synced(agents[i], models))
  }

  /** Synchronising twice against the same list is synchronising once, and
      only the installed flags change. */
  lemma SyncIdempotent(agents: seq<Agent>, models: seq<string>)
    ensures Sync(Sync(agents, models), models) == Sync(agents, models)
    ensures forall i :: 0 <= i < |agents| ==> Sync(agents, models)[i].(isInstalled := agents[i].isInstalled) == agents[i]
  {
  }

  /** Synchronising does not change which agents the filter and the
      partition list: exactly the corresponding synchronised agents. */
  lemma {:induction false} SyncKeepsFilter(agents: seq<Agent>, models: seq<string>, query: string, category: string)
    ensures FilteredAgents(Sync(agents, models), query, category) == Sync(FilteredAgents(agents, query, category), models)
  {
    if agents != [] {
      var s := Sync(agents, models);
      assert s[1..] == Sync(agents[1..], models);
      SyncKeepsFilter(agents[1..], models, query, category);
      assert Passes(s[0], query, category) == Passes(agents[0], query, category) by {
        assert s[0].tags == agents[0].tags;
      }
      var rest := FilteredAgents(agents[1..], query, category);
      if Passes(agents[0], query, category) {
        SyncCons(agents[0], rest, models);
      }
    }
  }

  lemma SyncCons(a: Agent, rest: seq<Agent>, models: seq<string>)
    ensures Sync([a] + rest, models) == [Synced(a, models)] + Sync(rest, models)
  {
    var l := Sync([a] + rest, models);
    var r := [Synced(a, models)] + Sync(rest, models);
    assert |l| == |r|;
    forall i | 0 <= i < |l|
      ensures l[i] == r[i]
    {
      if i > 0 {
        assert ([a] + rest)[i] == rest[i - 1];
      }
    }
  }

  /** The toggle of an agent without a model: every agent with that id has
      its installed flag flipped. */
  function Flip(agents: seq<Agent>, id: string): (r: seq<Agent>)
    ensures |r| == |agents|
    ensures forall i :: 0 <= i < |agents| && agents[i].id == id ==> r[i] == agents[i].(isInstalled := !agents[i].isInstalled)
    ensures forall i :: 0 <= i < |agents| && agents[i].id != id ==> r[i] == agents[i]
  {
    seq(|agents|, i requires 0 <= i < |agents| => if agents[i].id == id then agents[i].(isInstalled := !agents[i].isInstalled) else agents[i])
  }

  /** Flipping twice restores the list; flipping an unknown id changes nothing. */
  lemma FlipInvolution(agents: seq<Agent>, id: string)
    ensures Flip(Flip(agents, id), id) == agents
    ensures (forall i :: 0 <= i < |agents| ==> agents[i].id != id) ==> Flip(agents, id) == agents
  {
  }

  /** The agents' ids, in order. */
  function AgentIds(agents: seq<Agent>): (r: seq<string>)
    ensures |r| == |agents|
    ensures forall i :: 0 <= i < |agents| ==> r[i] == agents[i].id
  {
    seq(|agents|, i requires 0 <= i < |agents| => agents[i].id)
  }

  /** What a toggle asks of the inference server. */
  datatype ServerRequest = NoServerRequest | Pull(model: string) | Delete(model: string)

  /** The request a toggle of `id` makes: none for an unknown agent or one
      without a model, a pull to install and a delete to uninstall. */
  function ToggleRequest(agents: seq<Agent>, id: string): (r: ServerRequest)
    ensures r.Pull? || r.Delete? <==>
      (exists i :: 0 <= i < |agents| && agents[i].id == id && HasModel(agents[i]) && (forall j :: 0 <= j < i ==> agents[j].id != id))
  {
    match FirstIndex(AgentIds(agents), id)
    case None => NoServerRequest
    case Some(i) =>
      var a := agents[i];
      if !HasModel(a) then NoServerRequest
      else if !a.isInstalled then Pull(a.model.value)
      else Delete(a.model.value)
  }

  /** A pull is for a model not yet installed, a delete for an installed one. */
  lemma ToggleRequestDirection(agents: seq<Agent>, id: string)
    ensures var r := ToggleRequest(agents, id);
      r.Pull? || r.Delete? ==>
        var i := FirstIndex(AgentIds(agents), id).value;
        && r.model == agents[i].model.value
        && (r.Pull? <==> !agents[i].isInstalled)
  {
  }

  /** What a card shows for the tags. */
  datatype Badge = TagBadge(tag: string) | MoreBadge(count: nat)

  function BadgeLabel(b: Badge): string
  {
    match b
    case TagBadge(t) => t
    case MoreBadge(n) => "+" + Decimal(n)
  }

  /** The badges of a card: the first three tags, then a "+n" badge for the
      n further tags when there are more than three. */
  function TagBadges(tags: seq<string>): (r: seq<Badge>)
    ensures |tags| <= 3 ==> |r| == |tags|
    ensures |tags| > 3 ==> |r| == 4
    ensures forall i :: 0 <= i < |r| && i < 3 ==> r[i] == TagBadge(tags[i])
    ensures |tags| > 3 ==> r[3] == MoreBadge(|tags| - 3)
  {
    var shown := if |tags| <= 3 then tags else tags[..3];
    seq(|shown|, i requires 0 <= i < |shown| => TagBadge(shown[i])) + (if |tags| > 3 then [MoreBadge(|tags| - 3)] else [])
  }

  /** How many tags a run of badges stands for. */
  function Represented(bs: seq<Badge>): nat
  {
    if bs == [] then 0
    else Represented(bs[..|bs| - 1]) + match bs[|bs| - 1] { case TagBadge(_) => 1 case MoreBadge(n) => n }
  }

  /** Every tag is accounted for: shown as a badge or counted in the "+n" badge. */
  lemma TagBadgesAccountForAll(tags: seq<string>)
    ensures Represented(TagBadges(tags)) == |tags|
  {
    var r := TagBadges(tags);
    var k := if |tags| <= 3 then |tags| else 3;
    ShownRepresented(r, k);
    if |tags| > 3 {
      assert r[..3] == r[..|r| - 1];
    } else {
      assert r[..k] == r;
    }
  }

  lemma {:induction false} ShownRepresented(bs: seq<Badge>, k: nat)
    requires k <= |bs|
    requires forall i :: 0 <= i < k ==> bs[i].TagBadge?
    ensures Represented(bs[..k]) == k
  {
    if k > 0 {
      assert bs[..k][..k - 1] == bs[..k - 1];
      ShownRepresented(bs, k - 1);
    }
  }

  /** The heading of the regular list. */
  function Heading(category: string): (r: string)
  {
    if category == AllCategories then "All Agents" else category + " Agents"
  }

  /** The heading always names the selected category. */
  lemma HeadingNamesCategory(category: string)
    ensures Heading(category) == category + " Agents"
  {
  }

  /** "No agents found" is shown exactly when no agent passes the filter,
      and then both lists are empty. */
  lemma NoAgentsFound(agents: seq<Agent>, query: string, category: string)
    ensures |FilteredAgents(agents, query, category)| == 0 <==>
      forall i :: 0 <= i < |agents| ==> !(MatchesSearch(agents[i], query) && MatchesCategory(agents[i], category))
    ensures |FilteredAgents(agents, query, category)| == 0 ==>
      Featured(FilteredAgents(agents, query, category)) == [] && Regular(FilteredAgents(agents, query, category)) == []
  {
    var r := FilteredAgents(agents, query, category);
    if |r| > 0 {
      assert r[0] in agents;
    }
  }

  /** The marketplace page's state. */
  class Marketplace {
    var agents: seq<Agent>
    var searchQuery: string
    var selectedCategory: string

    constructor ()
      ensures agents == InitialAgents && searchQuery == "" && selectedCategory == AllCategories
    {
      agents := InitialAgents;
      searchQuery := "";
      selectedCategory := AllCategories;
    }

    method SetSearch(query: string)
      modifies this`searchQuery
      ensures searchQuery == query
    {
      searchQuery := query;
    }

    method SelectCategory(category: string)
      modifies this`selectedCategory
      ensures selectedCategory == category
    {
      selectedCategory := category;
    }

    /** The server's model list arrives, on mount or after a toggle's
      request has completed. */
    method InstalledModelsArrive(models: seq<string>)
      modifies this`agents
      ensures agents == Sync(old(agents), models)
    {
      agents := Sync(agents, models);
    }

    /** `handleToggleAgent`: for an unknown agent or one without a model the
      flag is flipped at once and no request is made; otherwise the page asks
      the server to pull or delete the model and waits for the model list. */
    method ToggleAgent(id: string) returns (req: ServerRequest)
      modifies this`agents
      ensures req == ToggleRequest(old(agents), id)
      ensures req == NoServerRequest ==> agents == Flip(old(agents), id)
      ensures req != NoServerRequest ==> agents == old(agents)
    {
      var found := FirstIndex(AgentIds(agents), id);
      if found.None? || !HasModel(agents[found.value]) {
        agents := Flip(agents, id);
        return NoServerRequest;
      }
      var a := agents[found.value];
      if !a.isInstalled {
        req := Pull(a.model.value);
      } else {
        req := Delete(a.model.value);
      }
    }

    function Listed(): seq<Agent>
      reads this
    {
      FilteredAgents(agents, searchQuery, selectedCategory)
    }
  }
}
