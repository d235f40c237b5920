/** Choosing a model under the requirements of a caller and the policy of a repository. */
module Router {
  import opened Prelude

  datatype Trust = Local | PrivateRemote | TrainingRemote
  {
    function Rank(): nat {
      match this
      case Local => 0
      case PrivateRemote => 1
      case TrainingRemote => 2
    }

    predicate IsAllowedBy(limit: Trust) {
      Rank() <= limit.Rank()
    }
  }

  /** `key` is the identity of the object: two entries with equal settings stay two entries. */
  datatype ModelChoice = ModelChoice(
    key: nat,
    name: string,
    model: string,
    provider: string,
    trust: Trust,
    supportsTools: bool,
    contextWindow: int)

  datatype Requirements = Requirements(
    needsDeepReasoning: bool,
    needsToolCalling: bool,
    minContextTokens: int,
    allowedTrust: Trust,
    preferredModel: Option<string>)

  predicate Satisfies(choice: ModelChoice, requirements: Requirements) {
    && (requirements.needsToolCalling ==> choice.supportsTools)
    && (choice.contextWindow != 0 ==> requirements.minContextTokens <= choice.contextWindow)
    && choice.trust.IsAllowedBy(requirements.allowedTrust)
  }

  function AllowedBy(choices: seq<ModelChoice>, limit: Trust): seq<ModelChoice> {
    if choices == [] then []
    else (if choices[0].trust.IsAllowedBy(limit) then [choices[0]] else []) + AllowedBy(choices[1..], limit)
  }

  function FirstNamed(choices: seq<ModelChoice>, name: string): Option<ModelChoice> {
    if choices == [] then None
    else if choices[0].name == name then Some(choices[0])
    else FirstNamed(choices[1..], name)
  }

  function FirstSatisfying(choices: seq<ModelChoice>, requirements: Requirements): Option<ModelChoice> {
    if choices == [] then None
    else if Satisfies(choices[0], requirements) then Some(choices[0])
    else FirstSatisfying(choices[1..], requirements)
  }

  function SatisfyingBesides(
    choices: seq<ModelChoice>, requirements: Requirements, besides: ModelChoice): seq<ModelChoice>
  {
    if choices == [] then []
    else
      (if choices[0].key != besides.key && Satisfies(choices[0], requirements) then [choices[0]] else [])
      + SatisfyingBesides(choices[1..], requirements, besides)
  }

  datatype ModelRouter = ModelRouter(localChoice: ModelChoice, remoteChoices: seq<ModelChoice>, remoteEnabled: bool)
  {
    function AllowedRemotes(limit: Trust): seq<ModelChoice> {
      if remoteEnabled then AllowedBy(remoteChoices, limit) else []
    }

    function Catalogue(limit: Trust): seq<ModelChoice> {
      [localChoice] + AllowedRemotes(limit)
    }

    function Named(requirements: Requirements): Option<ModelChoice> {
      if requirements.preferredModel.None? || requirements.preferredModel.value == "" then None
      else FirstNamed(Catalogue(requirements.allowedTrust), requirements.preferredModel.value)
    }

    function Select(requirements: Requirements): ModelChoice {
      var named := Named(requirements);
      if named.Some? && Satisfies(named.value, requirements) then
        named.value
      else if Satisfies(localChoice, requirements) && !requirements.needsDeepReasoning then
        localChoice
      else
        var remote := FirstSatisfying(AllowedRemotes(requirements.allowedTrust), requirements);
        if remote.Some? then remote.value else localChoice
    }

    function Alternatives(requirements: Requirements, besides: ModelChoice): seq<ModelChoice> {
      SatisfyingBesides(Catalogue(requirements.allowedTrust), requirements, besides)
    }

    /** The models a stream may ask, in the order the router offers them. */
    function Candidates(requirements: Requirements): seq<ModelChoice> {
      var first := Select(requirements);
      [first] + Alternatives(requirements, first)
    }
  }

  // ---- properties ---------------------------------------------------------------------

  lemma FirstNamedIsMember(choices: seq<ModelChoice>, name: string)
    ensures var r := FirstNamed(choices, name); r.Some? ==> r.value in choices && r.value.name == name
  {
  }

  lemma FirstSatisfyingIsMember(choices: seq<ModelChoice>, requirements: Requirements)
    ensures var r := FirstSatisfying(choices, requirements);
      if r.Some? then r.value in choices && Satisfies(r.value, requirements)
      else forall c :: c in choices ==> !Satisfies(c, requirements)
  {
  }

  /** The selected model meets the requirements whenever any model of the catalogue does. */
  lemma SelectSatisfies(router: ModelRouter, requirements: Requirements)
    ensures router.Select(requirements) in router.Catalogue(requirements.allowedTrust)
    ensures Satisfies(router.Select(requirements), requirements)
            <==> exists c :: c in router.Catalogue(requirements.allowedTrust) && Satisfies(c, requirements)
  {
    var catalogue := router.Catalogue(requirements.allowedTrust);
    var remotes := router.AllowedRemotes(requirements.allowedTrust);
    FirstSatisfyingIsMember(remotes, requirements);
    if requirements.preferredModel.Some? {
      FirstNamedIsMember(catalogue, requirements.preferredModel.value);
    }
    forall c | c in catalogue && Satisfies(c, requirements)
      ensures Satisfies(router.Select(requirements), requirements)
    {
      assert c == router.localChoice || c in remotes;
    }
  }

  /**
   Code leaves for a model the policy forbids only if the local model itself is
   forbidden and no model of the catalogue meets the requirements.
   */
  lemma SelectStaysInsidePolicy(router: ModelRouter, requirements: Requirements)
    ensures router.Select(requirements).trust.IsAllowedBy(requirements.allowedTrust)
            <==> router.localChoice.trust.IsAllowedBy(requirements.allowedTrust)
                 || exists c :: c in router.Catalogue(requirements.allowedTrust) && Satisfies(c, requirements)
  {
    SelectSatisfies(router, requirements);
    if !Satisfies(router.Select(requirements), requirements) {
      NothingElse(router, requirements);
    }
  }

  /** A remote model is selected only for a named reason. */
  lemma RemoteNeedsAReason(router: ModelRouter, requirements: Requirements)
    requires router.Select(requirements) != router.localChoice
    ensures || requirements.preferredModel == Some(router.Select(requirements).name)
            || !Satisfies(router.localChoice, requirements)
            || requirements.needsDeepReasoning
  {
    if requirements.preferredModel.Some? {
      FirstNamedIsMember(router.Catalogue(requirements.allowedTrust), requirements.preferredModel.value);
    }
  }

  ghost predicate DistinctKeys(choices: seq<ModelChoice>) {
    forall i, j :: 0 <= i < j < |choices| ==> choices[i].key != choices[j].key
  }

  lemma {:induction false} SatisfyingBesidesIsFilter(
    choices: seq<ModelChoice>, requirements: Requirements, besides: ModelChoice)
    requires DistinctKeys(choices)
    ensures var kept := SatisfyingBesides(choices, requirements, besides);
      && DistinctKeys(kept)
      && forall c :: c in kept <==> c in choices && c.key != besides.key && Satisfies(c, requirements)
  {
    hide Satisfies;
    if choices != [] {
      SatisfyingBesidesIsFilter(choices[1..], requirements, besides);
      assert choices == [choices[0]] + choices[1..];
      forall c | c in SatisfyingBesides(choices[1..], requirements, besides)
        ensures c.key != choices[0].key
      {
        var i :| 0 <= i < |choices[1..]| && choices[1..][i] == c;
        assert choices[i + 1] == c;
      }
    }
  }

  /**
   Selection and alternatives together list every model of the catalogue that
   meets the requirements exactly once, and beyond those at most the local model
   selected for want of any.
   */
  lemma CandidatesAreTheSatisfyingModels(router: ModelRouter, requirements: Requirements)
    requires DistinctKeys(router.Catalogue(requirements.allowedTrust))
    ensures var candidates := router.Candidates(requirements);
      var catalogue := router.Catalogue(requirements.allowedTrust);
      && DistinctKeys(candidates)
      && (forall c :: c in catalogue && Satisfies(c, requirements) ==> c in candidates)
      && (forall c :: c in candidates ==> c in catalogue)
      && (forall c :: c in candidates ==>
            Satisfies(c, requirements) || (c == router.localChoice && candidates == [c]))
  {
    hide Satisfies;
    var catalogue := router.Catalogue(requirements.allowedTrust);
    var first := router.Select(requirements);
    SelectSatisfies(router, requirements);
    SatisfyingBesidesIsFilter(catalogue, requirements, first);
    var others := router.Alternatives(requirements, first);
    forall c | c in catalogue && Satisfies(c, requirements)
      ensures c == first || c in others
    {
      if c.key == first.key {
        SameKey(catalogue, c, first);
      }
    }
    if !Satisfies(first, requirements) {
      NothingElse(router, requirements);
      NoneBesides(catalogue, requirements, first);
    }
  }

  lemma {:induction false} NoneBesides(choices: seq<ModelChoice>, requirements: Requirements, besides: ModelChoice)
    requires forall c :: c in choices ==> !Satisfies(c, requirements)
    ensures SatisfyingBesides(choices, requirements, besides) == []
  {
    hide Satisfies;
    if choices != [] {
      NoneBesides(choices[1..], requirements, besides);
    }
  }

  lemma SameKey(choices: seq<ModelChoice>, a: ModelChoice, b: ModelChoice)
    requires DistinctKeys(choices) && a in choices && b in choices && a.key == b.key
    ensures a == b
  {
  }

  lemma NothingElse(router: ModelRouter, requirements: Requirements)
    requires !Satisfies(router.Select(requirements), requirements)
    ensures router.Select(requirements) == router.localChoice
  {
    FirstSatisfyingIsMember(router.AllowedRemotes(requirements.allowedTrust), requirements);
  }

  lemma {:induction false} AllowedByIsAllowed(choices: seq<ModelChoice>, limit: Trust)
    ensures forall c :: c in AllowedBy(choices, limit) <==> c in choices && c.trust.IsAllowedBy(limit)
  {
    if choices != [] {
      AllowedByIsAllowed(choices[1..], limit);
      assert choices == [choices[0]] + choices[1..];
    }
  }

  /** With a local model that keeps code at home, no candidate lets it travel further than the policy allows. */
  lemma CandidatesStayInsidePolicy(router: ModelRouter, requirements: Requirements)
    requires router.localChoice.trust == Local
    ensures forall c :: c in router.Candidates(requirements) ==> c.trust.IsAllowedBy(requirements.allowedTrust)
    ensures forall c :: c in router.Catalogue(requirements.allowedTrust) ==> c.trust.IsAllowedBy(requirements.allowedTrust)
  {
    hide Satisfies;
    AllowedByIsAllowed(router.remoteChoices, requirements.allowedTrust);
    SelectSatisfies(router, requirements);
    SatisfyingBesidesIsMember(
      router.Catalogue(requirements.allowedTrust), requirements, router.Select(requirements));
  }

  lemma {:induction false} SatisfyingBesidesIsMember(
    choices: seq<ModelChoice>, requirements: Requirements, besides: ModelChoice)
    ensures forall c :: c in SatisfyingBesides(choices, requirements, besides) ==> c in choices
  {
    hide Satisfies;
    if choices != [] {
      SatisfyingBesidesIsMember(choices[1..], requirements, besides);
    }
  }

  // ---- which model, exactly --------------------------------------------------------------

  /** The policy lets code travel as far as this. */
  predicate MayTravel(trust: Trust, limit: Trust) {
    match limit
    case Local => trust == Local
    case PrivateRemote => trust != TrainingRemote
    case TrainingRemote => true
  }

  /** The model does what is asked; a window it does not tell of is large enough. */
  predicate Meets(choice: ModelChoice, requirements: Requirements) {
    && (choice.supportsTools || !requirements.needsToolCalling)
    && (choice.contextWindow == 0 || choice.contextWindow >= requirements.minContextTokens)
    && MayTravel(choice.trust, requirements.allowedTrust)
  }

  lemma SatisfyingIsMeeting(choice: ModelChoice, requirements: Requirements)
    ensures Satisfies(choice, requirements) <==> Meets(choice, requirements)
    ensures choice.trust.IsAllowedBy(requirements.allowedTrust) <==> MayTravel(choice.trust, requirements.allowedTrust)
  {
  }

  /** These models stand at these places of the list, in its order. */
  predicate StandAt(choices: seq<ModelChoice>, places: seq<nat>, kept: seq<ModelChoice>) {
    && IsIncreasing(places) && |kept| == |places|
    && forall k :: 0 <= k < |places| ==> places[k] < |choices| && kept[k] == choices[places[k]]
  }

  function OneFurther(places: seq<nat>): (later: seq<nat>)
    ensures |later| == |places| && forall k :: 0 <= k < |places| ==> later[k] == places[k] + 1
  {
    seq(|places|, k requires 0 <= k < |places| => places[k] + 1)
  }

  lemma PlacesOneFurther(places: seq<nat>, i: nat)
    ensures i in OneFurther(places) <==> i > 0 && i - 1 in places
    ensures i in [0] + OneFurther(places) <==> i == 0 || i - 1 in places
  {
    var later := OneFurther(places);
    if i > 0 && i - 1 in places {
      var k :| 0 <= k < |places| && places[k] == i - 1;
      assert later[k] == i;
    }
    if i in later {
      var k :| 0 <= k < |later| && later[k] == i;
      assert places[k] == i - 1;
    }
    hide OneFurther;
    assert i in [0] + later <==> i == 0 || i in later;
  }

  lemma StandOneFurther(first: ModelChoice, rest: seq<ModelChoice>, places: seq<nat>, kept: seq<ModelChoice>)
    requires StandAt(rest, places, kept)
    ensures StandAt([first] + rest, OneFurther(places), kept)
  {
    hide OneFurther;
  }

  lemma StandWithFirst(first: ModelChoice, rest: seq<ModelChoice>, places: seq<nat>, kept: seq<ModelChoice>)
    requires StandAt(rest, places, kept)
    ensures StandAt([first] + rest, [0] + OneFurther(places), [first] + kept)
  {
    hide OneFurther;
    var later, all := OneFurther(places), [first] + rest;
    forall k | 0 <= k < |places| + 1
      ensures ([0] + later)[k] < |all| && ([first] + kept)[k] == all[([0] + later)[k]]
    {
    }
  }

  /** The allowed remote models: exactly those the policy lets code travel to, in the order of the registry. */
  lemma {:induction false} AllowedKeepOrder(choices: seq<ModelChoice>, limit: Trust) returns (places: seq<nat>)
    ensures StandAt(choices, places, AllowedBy(choices, limit))
    ensures forall i: nat :: i in places <==> i < |choices| && MayTravel(choices[i].trust, limit)
  {
    places := [];
    if choices != [] {
      var first, rest := choices[0], choices[1..];
      assert choices == [first] + rest;
      assert MayTravel(first.trust, limit) <==> first.trust.IsAllowedBy(limit);
      assert [] + AllowedBy(rest, limit) == AllowedBy(rest, limit);
      hide StandAt, MayTravel, OneFurther;
      var later := AllowedKeepOrder(rest, limit);
      StandOneFurther(first, rest, later, AllowedBy(rest, limit));
      StandWithFirst(first, rest, later, AllowedBy(rest, limit));
      places := if MayTravel(first.trust, limit) then [0] + OneFurther(later) else OneFurther(later);
      forall i: nat
        ensures i in places <==> i < |choices| && MayTravel(choices[i].trust, limit)
      {
        PlacesOneFurther(later, i);
      }
    }
  }

  /** The alternatives: every other model of the catalogue that does what is asked, in the order of the catalogue. */
  lemma {:induction false} AlternativesKeepOrder(
    choices: seq<ModelChoice>, requirements: Requirements, besides: ModelChoice)
    returns (places: seq<nat>)
    ensures StandAt(choices, places, SatisfyingBesides(choices, requirements, besides))
    ensures forall i: nat :: i in places <==>
                             i < |choices| && choices[i].key != besides.key && Meets(choices[i], requirements)
  {
    places := [];
    if choices != [] {
      var first, rest := choices[0], choices[1..];
      assert choices == [first] + rest;
      SatisfyingIsMeeting(first, requirements);
      var kept := SatisfyingBesides(rest, requirements, besides);
      assert [] + kept == kept;
      hide StandAt, Meets, Satisfies, OneFurther;
      var later := AlternativesKeepOrder(rest, requirements, besides);
      StandOneFurther(first, rest, later, kept);
      StandWithFirst(first, rest, later, kept);
      var isKept := first.key != besides.key && Meets(first, requirements);
      places := if isKept then [0] + OneFurther(later) else OneFurther(later);
      forall i: nat
        ensures i in places <==> i < |choices| && choices[i].key != besides.key && Meets(choices[i], requirements)
      {
        PlacesOneFurther(later, i);
      }
    }
  }

  /** The catalogue's first model with the name that is asked for stands here. */
  predicate IsFirstNamed(router: ModelRouter, requirements: Requirements, i: nat) {
    var catalogue, preferred := router.Catalogue(requirements.allowedTrust), requirements.preferredModel;
    && preferred.Some? && preferred.value != "" && i < |catalogue| && catalogue[i].name == preferred.value
    && forall j :: 0 <= j < i ==> catalogue[j].name != preferred.value
  }

  /** The first of these models that does what is asked stands here. */
  predicate IsFirstMeeting(choices: seq<ModelChoice>, requirements: Requirements, i: nat) {
    && i < |choices| && Meets(choices[i], requirements)
    && forall j :: 0 <= j < i ==> !Meets(choices[j], requirements)
  }

  lemma {:induction false} FirstNamedIsFirst(choices: seq<ModelChoice>, name: string, i: nat)
    requires i < |choices| && choices[i].name == name && forall j :: 0 <= j < i ==> choices[j].name != name
    ensures FirstNamed(choices, name) == Some(choices[i])
  {
    if i > 0 {
      FirstNamedIsFirst(choices[1..], name, i - 1);
    }
  }

  lemma {:induction false} PlaceOfNamed(choices: seq<ModelChoice>, name: string) returns (i: nat)
    ensures FirstNamed(choices, name).Some? ==>
              && i < |choices| && choices[i].name == name && FirstNamed(choices, name) == Some(choices[i])
              && forall j :: 0 <= j < i ==> choices[j].name != name
  {
    i := 0;
    if choices != [] && choices[0].name != name {
      var k := PlaceOfNamed(choices[1..], name);
      i := k + 1;
    }
  }

  lemma {:induction false} FirstRemoteIsFirst(choices: seq<ModelChoice>, requirements: Requirements)
    ensures var first := FirstSatisfying(AllowedBy(choices, requirements.allowedTrust), requirements);
      && (first.None? <==> forall c :: c in choices ==> !Meets(c, requirements))
      && forall i: nat :: IsFirstMeeting(choices, requirements, i) ==> first == Some(choices[i])
  {
    if choices != [] {
      var rest := choices[1..];
      assert choices == [choices[0]] + rest;
      FirstRemoteIsFirst(rest, requirements);
      SatisfyingIsMeeting(choices[0], requirements);
      AllowedUnfolds(choices, requirements);
      hide Meets, Satisfies, AllowedBy, FirstSatisfying;
      if !Meets(choices[0], requirements) {
        forall i: nat | IsFirstMeeting(choices, requirements, i)
          ensures FirstSatisfying(AllowedBy(choices, requirements.allowedTrust), requirements) == Some(choices[i])
        {
          assert forall j :: 0 <= j < i - 1 ==> rest[j] == choices[j + 1];
          assert IsFirstMeeting(rest, requirements, i - 1);
        }
      }
    }
  }

  lemma AllowedUnfolds(choices: seq<ModelChoice>, requirements: Requirements)
    requires choices != []
    ensures FirstSatisfying(AllowedBy(choices, requirements.allowedTrust), requirements)
         == if Satisfies(choices[0], requirements) then Some(choices[0])
            else FirstSatisfying(AllowedBy(choices[1..], requirements.allowedTrust), requirements)
  {
    var rest := AllowedBy(choices[1..], requirements.allowedTrust);
    assert ([choices[0]] + rest)[1..] == rest && [] + rest == rest;
  }

  lemma NamedIsFirst(router: ModelRouter, requirements: Requirements)
    ensures var catalogue, named := router.Catalogue(requirements.allowedTrust), router.Named(requirements);
      && (forall i: nat :: IsFirstNamed(router, requirements, i) ==> named == Some(catalogue[i]))
      && (named.Some? ==> exists i: nat :: IsFirstNamed(router, requirements, i))
  {
    var catalogue := router.Catalogue(requirements.allowedTrust);
    if requirements.preferredModel.Some? && requirements.preferredModel.value != "" {
      var name := requirements.preferredModel.value;
      var k := PlaceOfNamed(catalogue, name);
      if FirstNamed(catalogue, name).Some? {
        assert IsFirstNamed(router, requirements, k);
      }
      forall i: nat | IsFirstNamed(router, requirements, i)
        ensures FirstNamed(catalogue, name) == Some(catalogue[i])
      {
        FirstNamedIsFirst(catalogue, name, i);
      }
    }
    hide FirstNamed, AllowedBy;
  }

  /**
   Which model is selected: the one named, if the first of that name does what is asked;
   else the local one, if it does and no deep reasoning is asked; else the first remote
   one of the registry that does; and the local one if there is none.
   */
  lemma HowAModelIsSelected(router: ModelRouter, requirements: Requirements)
    ensures var catalogue, selected := router.Catalogue(requirements.allowedTrust), router.Select(requirements);
      && (forall i: nat :: IsFirstNamed(router, requirements, i) && Meets(catalogue[i], requirements) ==>
            selected == catalogue[i])
      && ((forall i: nat :: IsFirstNamed(router, requirements, i) ==> !Meets(catalogue[i], requirements)) ==>
            if Meets(router.localChoice, requirements) && !requirements.needsDeepReasoning then
              selected == router.localChoice
            else
              && (forall i: nat :: router.remoteEnabled && IsFirstMeeting(router.remoteChoices, requirements, i) ==>
                    selected == router.remoteChoices[i])
              && (!router.remoteEnabled || (forall c :: c in router.remoteChoices ==> !Meets(c, requirements)) ==>
                    selected == router.localChoice))
  {
    NamedIsFirst(router, requirements);
    SatisfyingIsMeeting(router.localChoice, requirements);
    FirstRemoteIsFirst(router.remoteChoices, requirements);
    var named := router.Named(requirements);
    if named.Some? {
      SatisfyingIsMeeting(named.value, requirements);
    }
    hide Satisfies, Meets, FirstSatisfying, AllowedBy, IsFirstNamed, IsFirstMeeting, FirstNamed;
  }
}
