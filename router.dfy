/** `SkillRouter` of model/router.py: keyword classification of a query, the
    map from skills to the models that declare them, and the choice between a
    single model and an ensemble. The YAML configuration is given as values;
    a model's `generate` is a function parameter `generate(path, query)`. */
module Router {
  import opened Common

  /** One entry of `config["models"]`. */
  datatype ModelConfig = ModelConfig(name: string, path: string, skills: seq<string>)

  /** One entry of `ensembling.strategies`; `combine` is its `method` key. */
  datatype Strategy = Strategy(skill: string, models: seq<string>, combine: string)

  /** `config.get("ensembling", {})`: a missing `enabled` is false and missing
      `strategies` are none. */
  datatype Ensembling = Ensembling(enabled: bool, strategies: seq<Strategy>)

  /** The exceptions `route` can raise: `self.models[m]` for a name no model
      has (KeyError), `max` of no outputs (ValueError) and `outputs[0]` of no
      outputs (IndexError). */
  datatype RouteError = UnknownModel(name: string) | NoOutputsForMax | NoOutputsForFirst

  const CODE_WORDS := ["code", "python", "function", "bug", "error"]
  const IMAGE_WORDS := ["image", "vision", ".png", ".jpg"]
  const MULTILINGUAL_WORDS := ["translate", "spanish", "chinese", "arabic"]
  const REASONING_WORDS := ["math", "calculate", "reason"]
  const SKILLS := ["code", "image", "multilingual", "reasoning", "general"]
  const NO_MODEL := "No model available for this skill."

  // ----- the skill map ----------------------------------------------------

  /** How many times `x` occurs in `xs`. */
  function Count(xs: seq<string>, x: string): nat {
    if xs == [] then 0 else Count(xs[..|xs| - 1], x) + (if xs[|xs| - 1] == x then 1 else 0)
  }

  function Repeat(x: string, n: nat): (r: seq<string>)
    ensures |r| == n && forall k :: 0 <= k < n ==> r[k] == x
  {
    if n == 0 then [] else Repeat(x, n - 1) + [x]
  }

  /** The names `_build_skill_map` appends under skill `s`, in order: every
      model once per time it lists `s`, in configuration order. */
  function Declarers(ms: seq<ModelConfig>, s: string): seq<string> {
    if ms == [] then []
    else Declarers(ms[..|ms| - 1], s) + Repeat(ms[|ms| - 1].name, Count(ms[|ms| - 1].skills, s))
  }

  lemma CountSnoc(xs: seq<string>, j: nat, x: string)
    requires j < |xs|
    ensures Count(xs[..j + 1], x) == Count(xs[..j], x) + (if xs[j] == x then 1 else 0)
  {
    assert xs[..j + 1][..j] == xs[..j];
  }

  /** One pass of the inner loop of `_build_skill_map`:
      `setdefault(skill, []).append(name)` adds one more occurrence of the
      model under that skill and changes no other skill. */
  lemma SkillStep(m: map<string, seq<string>>, done: seq<ModelConfig>, name: string, skills: seq<string>, j: nat)
    requires j < |skills|
    requires forall s :: Lookup(m, s) == Declarers(done, s) + Repeat(name, Count(skills[..j], s))
    ensures forall s :: Lookup(m[skills[j] := Lookup(m, skills[j]) + [name]], s) ==
                        Declarers(done, s) + Repeat(name, Count(skills[..j + 1], s))
  {
    forall s ensures Lookup(m[skills[j] := Lookup(m, skills[j]) + [name]], s) ==
                     Declarers(done, s) + Repeat(name, Count(skills[..j + 1], s)) {
      SkillStepAt(m, done, name, skills, j, s);
    }
  }

  lemma SkillStepAt(m: map<string, seq<string>>, done: seq<ModelConfig>, name: string, skills: seq<string>,
                    j: nat, s: string)
    requires j < |skills|
    requires Lookup(m, s) == Declarers(done, s) + Repeat(name, Count(skills[..j], s))
    ensures Lookup(m[skills[j] := Lookup(m, skills[j]) + [name]], s) ==
            Declarers(done, s) + Repeat(name, Count(skills[..j + 1], s))
  {
    CountSnoc(skills, j, s);
    if s == skills[j] {
      var c := Count(skills[..j], s);
      assert Repeat(name, c + 1) == Repeat(name, c) + [name];
    }
  }

  /** After the inner loop, the map holds the declarers of one more model. */
  lemma ModelStep(m: map<string, seq<string>>, ms: seq<ModelConfig>, i: nat)
    requires i < |ms|
    requires forall s :: Lookup(m, s) == Declarers(ms[..i], s) + Repeat(ms[i].name, Count(ms[i].skills[..|ms[i].skills|], s))
    ensures forall s :: Lookup(m, s) == Declarers(ms[..i + 1], s)
  {
    assert ms[i].skills[..|ms[i].skills|] == ms[i].skills;
    assert ms[..i + 1][..i] == ms[..i];
  }

  function Lookup(m: map<string, seq<string>>, s: string): seq<string> {
    if s in m then m[s] else []
  }

  lemma {:induction false} CountPositive(xs: seq<string>, x: string)
    ensures Count(xs, x) > 0 <==> x in xs
  {
    if xs != [] {
      CountPositive(xs[..|xs| - 1], x);
      assert xs == xs[..|xs| - 1] + [xs[|xs| - 1]];
    }
  }

  /** A name is listed under a skill exactly when some model of that name
      declares the skill. */
  lemma {:induction false} DeclarersMembership(ms: seq<ModelConfig>, s: string, x: string)
    ensures x in Declarers(ms, s) <==> exists k :: 0 <= k < |ms| && ms[k].name == x && s in ms[k].skills
  {
    if ms != [] {
      var init, last := ms[..|ms| - 1], ms[|ms| - 1];
      DeclarersMembership(init, s, x);
      CountPositive(last.skills, s);
      if x in Declarers(ms, s) {
        if x !in Declarers(init, s) {
          assert ms[|ms| - 1].name == x && s in ms[|ms| - 1].skills;
        } else {
          var k :| 0 <= k < |init| && init[k].name == x && s in init[k].skills;
          assert ms[k] == init[k];
        }
      }
      if exists k :: 0 <= k < |ms| && ms[k].name == x && s in ms[k].skills {
        var k :| 0 <= k < |ms| && ms[k].name == x && s in ms[k].skills;
        if k < |init| {
          assert init[k] == ms[k];
        } else {
          assert Repeat(last.name, Count(last.skills, s))[0] == x;
        }
      }
    }
  }

  /** `self.models`: the path of each name, the last declaration winning. */
  function Paths(ms: seq<ModelConfig>): map<string, string> {
    if ms == [] then map[] else Paths(ms[..|ms| - 1])[ms[|ms| - 1].name := ms[|ms| - 1].path]
  }

  /** Every configured name has a loaded model, and nothing else has one; a
      name declared twice keeps its last path. */
  lemma {:induction false} PathsDomain(ms: seq<ModelConfig>, x: string)
    ensures x in Paths(ms) <==> exists k :: 0 <= k < |ms| && ms[k].name == x
    ensures x in Paths(ms) ==> exists k :: 0 <= k < |ms| && ms[k].name == x && Paths(ms)[x] == ms[k].path &&
                                  forall j :: k < j < |ms| ==> ms[j].name != x
  {
    if ms != [] {
      var init := ms[..|ms| - 1];
      PathsDomain(init, x);
      if x == ms[|ms| - 1].name {
        assert ms[|ms| - 1].name == x;
      } else {
        if exists k :: 0 <= k < |ms| && ms[k].name == x {
          var k :| 0 <= k < |ms| && ms[k].name == x;
          assert init[k] == ms[k];
        }
        if x in Paths(init) {
          var k :| 0 <= k < |init| && init[k].name == x && Paths(init)[x] == init[k].path &&
                   forall j :: k < j < |init| ==> init[j].name != x;
          assert ms[k] == init[k];
          assert forall j :: k < j < |ms| ==> ms[j].name != x by {
            forall j | k < j < |ms| ensures ms[j].name != x {
              if j < |init| { assert init[j] == ms[j]; }
            }
          }
        }
      }
    }
  }

  // ----- choosing the outputs ----------------------------------------------

  /** `max(outputs, key=len)`: the first output of greatest length. */
  function LongestIndex(outs: seq<string>): (k: nat)
    requires outs != []
    ensures k < |outs|
    ensures forall j :: 0 <= j < |outs| ==> |outs[j]| <= |outs[k]|
    ensures forall j :: 0 <= j < k ==> |outs[j]| < |outs[k]|
  {
    if |outs| == 1 then 0
    else
      var k := LongestIndex(outs[..|outs| - 1]);
      if |outs[|outs| - 1]| > |outs[k]| then |outs| - 1 else k
  }

  /** Only one index is both of greatest length and ahead of every other such
      index, so `LongestIndex` is the index `max` picks. */
  lemma LongestIndexUnique(outs: seq<string>, k: nat)
    requires k < |outs|
    requires forall j :: 0 <= j < |outs| ==> |outs[j]| <= |outs[k]|
    requires forall j :: 0 <= j < k ==> |outs[j]| < |outs[k]|
    ensures k == LongestIndex(outs)
  {
  }

  /** `[self.models[m].generate(query) for m in names]`, stopping at the first
      name without a model. */
  function Outputs(names: seq<string>, paths: map<string, string>, query: string,
                   generate: (string, string) -> string): (r: Result<seq<string>, RouteError>)
    ensures r.Ok? <==> forall k :: 0 <= k < |names| ==> names[k] in paths
    ensures r.Ok? ==> |r.value| == |names| &&
                      forall k :: 0 <= k < |names| ==> r.value[k] == generate(paths[names[k]], query)
    ensures r.Err? ==> exists k :: 0 <= k < |names| && names[k] !in paths && r.error == UnknownModel(names[k]) &&
                                   forall j :: 0 <= j < k ==> names[j] in paths
  {
    if names == [] then Ok([])
    else if names[0] !in paths then Err(UnknownModel(names[0]))
    else
      match Outputs(names[1..], paths, query, generate)
      case Err(e) =>
        assert forall k :: 1 <= k < |names| ==> names[k] == names[1..][k - 1];
        Err(e)
      case Ok(rest) =>
        assert forall k :: 1 <= k < |names| ==> names[k] == names[1..][k - 1];
        Ok([generate(paths[names[0]], query)] + rest)
  }

  /** The strategy loop of `route`: `None` when no strategy returns (none for
      the skill, or only ones whose method is neither "best" nor "first"). */
  function Ensemble(strats: seq<Strategy>, skill: string, paths: map<string, string>, query: string,
                    generate: (string, string) -> string): Option<Result<string, RouteError>>
  {
    if strats == [] then None
    else if strats[0].skill != skill then Ensemble(strats[1..], skill, paths, query, generate)
    else
      match Outputs(strats[0].models, paths, query, generate)
      case Err(e) => Some(Err(e))
      case Ok(outs) =>
        if strats[0].combine == "best" then
          Some(if outs == [] then Err(NoOutputsForMax) else Ok(outs[LongestIndex(outs)]))
        else if strats[0].combine == "first" then
          Some(if outs == [] then Err(NoOutputsForFirst) else Ok(outs[0]))
        else Ensemble(strats[1..], skill, paths, query, generate)
  }

  /** The last line of `route`: the first listed model answers, or the fixed
      message when the list is empty. */
  function Single(models: seq<string>, paths: map<string, string>, query: string,
                  generate: (string, string) -> string): (r: Result<string, RouteError>)
    ensures models == [] ==> r == Ok(NO_MODEL)
    ensures models != [] && models[0] in paths ==> r == Ok(generate(paths[models[0]], query))
    ensures models != [] && models[0] !in paths ==> r == Err(UnknownModel(models[0]))
  {
    if models == [] then Ok(NO_MODEL)
    else if models[0] in paths then Ok(generate(paths[models[0]], query))
    else Err(UnknownModel(models[0]))
  }

  class SkillRouter {
    const models: seq<ModelConfig>
    const ensembling: Ensembling
    /** `self.models`, as the path each name's `LocalLLM` was loaded from. */
    const paths: map<string, string>
    var skillMap: map<string, seq<string>>

    /** The skill map is the one `_build_skill_map` computes, and `paths` the
        one the constructor's loop leaves. */
    ghost predicate Valid()
      reads this
    {
      paths == Paths(models) &&
      (forall s :: s in skillMap ==> skillMap[s] != []) &&
      (forall s :: Lookup(skillMap, s) == Declarers(models, s))
    }

    /** `__init__` with the configuration already parsed. */
    constructor (config: seq<ModelConfig>, ens: Ensembling)
      ensures models == config && ensembling == ens
      ensures Valid()
    {
      var loaded: map<string, string> := map[];
      var i := 0;
      while i < |config|
        invariant 0 <= i <= |config|
        invariant loaded == Paths(config[..i])
      {
        assert config[..i + 1][..i] == config[..i];
        loaded := loaded[config[i].name := config[i].path];
        i := i + 1;
      }
      assert config[..|config|] == config;
      models := config;
      ensembling := ens;
      paths := loaded;
      new;
      skillMap := BuildSkillMap();
    }

    /** `_build_skill_map`: every skill some model declares, with the names of
        its declarers in configuration order; no other key. */
    method BuildSkillMap() returns (m: map<string, seq<string>>)
      ensures forall s :: s in m ==> m[s] != []
      ensures forall s :: Lookup(m, s) == Declarers(models, s)
    {
      m := map[];
      var i := 0;
      while i < |models|
        invariant 0 <= i <= |models|
        invariant forall s :: s in m ==> m[s] != []
        invariant forall s :: Lookup(m, s) == Declarers(models[..i], s)
      {
        var entry := models[i];
        var j := 0;
        assert entry.skills[..0] == [];
        while j < |entry.skills|
          invariant 0 <= j <= |entry.skills|
          invariant forall s :: s in m ==> m[s] != []
          invariant forall s :: Lookup(m, s) == Declarers(models[..i], s) + Repeat(entry.name, Count(entry.skills[..j], s))
        {
          SkillStep(m, models[..i], entry.name, entry.skills, j);
          var skill := entry.skills[j];
          m := m[skill := Lookup(m, skill) + [entry.name]];
          j := j + 1;
        }
        ModelStep(m, models, i);
        i := i + 1;
      }
      assert models[..|models|] == models;
    }

    /** `classify(query)`: the first keyword group, in the fixed order code,
        image, multilingual, reasoning, with a word in the lowered query. */
    static function Classify(query: string): (r: string)
      ensures r in SKILLS
      ensures var q := Lower(query);
              (r == "code" <==> ContainsAny(q, CODE_WORDS)) &&
              (r == "image" <==> !ContainsAny(q, CODE_WORDS) && ContainsAny(q, IMAGE_WORDS)) &&
              (r == "multilingual" <==> !ContainsAny(q, CODE_WORDS) && !ContainsAny(q, IMAGE_WORDS) &&
                                        ContainsAny(q, MULTILINGUAL_WORDS)) &&
              (r == "reasoning" <==> !ContainsAny(q, CODE_WORDS) && !ContainsAny(q, IMAGE_WORDS) &&
                                     !ContainsAny(q, MULTILINGUAL_WORDS) && ContainsAny(q, REASONING_WORDS))
    {
      var q := Lower(query);
      if ContainsAny(q, CODE_WORDS) then "code"
      else if ContainsAny(q, IMAGE_WORDS) then "image"
      else if ContainsAny(q, MULTILINGUAL_WORDS) then "multilingual"
      else if ContainsAny(q, REASONING_WORDS) then "reasoning"
      else "general"
    }

    /** `self.skill_map.get(skill, self.skill_map.get("general", []))`. */
    function Candidates(skill: string): (r: seq<string>)
      reads this
      ensures skill in skillMap ==> r == skillMap[skill]
      ensures skill !in skillMap && "general" in skillMap ==> r == skillMap["general"]
      ensures skill !in skillMap && "general" !in skillMap ==> r == []
    {
      if skill in skillMap then skillMap[skill] else Lookup(skillMap, "general")
    }

    /** What `route(query)` returns or raises. */
    function Answer(query: string, generate: (string, string) -> string): Result<string, RouteError>
      reads this
    {
      var skill := Classify(query);
      var fromEnsemble := if ensembling.enabled then Ensemble(ensembling.strategies, skill, paths, query, generate)
                          else None;
      if fromEnsemble.Some? then fromEnsemble.value else Single(Candidates(skill), paths, query, generate)
    }

    /** `route(query)`. */
    method Route(query: string, generate: (string, string) -> string) returns (r: Result<string, RouteError>)
      ensures r == Answer(query, generate)
    {
      var skill := Classify(query);
      var candidates := Candidates(skill);
      if ensembling.enabled {
        var strats := ensembling.strategies;
        var i := 0;
        while i < |strats|
          invariant 0 <= i <= |strats|
          invariant Ensemble(strats, skill, paths, query, generate) == Ensemble(strats[i..], skill, paths, query, generate)
        {
          var strat := strats[i];
          assert strats[i..][1..] == strats[i + 1..];
          if strat.skill == skill {
            var outputs := Outputs(strat.models, paths, query, generate);
            if outputs.Err? {
              return Err(outputs.error);
            }
            var outs := outputs.value;
            if strat.combine == "best" {
              if outs == [] {
                return Err(NoOutputsForMax);
              }
              return Ok(outs[LongestIndex(outs)]);
            } else if strat.combine == "first" {
              if outs == [] {
                return Err(NoOutputsForFirst);
              }
              return Ok(outs[0]);
            }
          }
          i := i + 1;
        }
      }
      r := Single(candidates, paths, query, generate);
    }
  }

  // ----- properties of routing --------------------------------------------

  /** Lowering the query first does not change its class. */
  lemma ClassifyIgnoresCase(query: string)
    ensures SkillRouter.Classify(Lower(query)) == SkillRouter.Classify(query)
  {
    LowerIsLower(query);
    LowerIsLower(Lower(query));
  }

  /** A code word wins whatever surrounds it: more text around a query classed
      as code keeps it code. */
  lemma ClassifyCodeAbsorbs(query: string, before: string, after: string)
    requires SkillRouter.Classify(query) == "code"
    ensures SkillRouter.Classify(before + query + after) == "code"
  {
    var q := Lower(query);
    var k :| 0 <= k < |CODE_WORDS| && Contains(q, CODE_WORDS[k]);
    assert Lower(before + query + after) == Lower(before) + q + Lower(after);
    ContainsExtend(q, CODE_WORDS[k], Lower(before), Lower(after));
  }

  /** With no strategy for the skill, the ensemble gives no answer. */
  lemma {:induction false} EnsembleNone(strats: seq<Strategy>, skill: string, paths: map<string, string>,
                                        query: string, generate: (string, string) -> string)
    requires forall k :: 0 <= k < |strats| ==> strats[k].skill != skill
    ensures Ensemble(strats, skill, paths, query, generate) == None
  {
    if strats != [] {
      EnsembleNone(strats[1..], skill, paths, query, generate);
    }
  }

  /** Without ensembling, or without a strategy for the query's skill, the
      first model listed for the skill answers, else the first "general"
      model, else the fixed message. */
  lemma RouteFallback(router: SkillRouter, query: string, generate: (string, string) -> string)
    requires !router.ensembling.enabled ||
             forall k :: 0 <= k < |router.ensembling.strategies| ==>
               router.ensembling.strategies[k].skill != SkillRouter.Classify(query)
    ensures var skill := SkillRouter.Classify(query);
            var chosen := Lookup(router.skillMap, if skill in router.skillMap then skill else "general");
            router.Answer(query, generate) == Single(chosen, router.paths, query, generate)
  {
    if router.ensembling.enabled {
      EnsembleNone(router.ensembling.strategies, SkillRouter.Classify(query), router.paths, query, generate);
    }
  }

  /** Every name in the skill map has a loaded model, so the single-model
      branch never raises KeyError. */
  lemma SingleNeverRaises(router: SkillRouter, skill: string, query: string, generate: (string, string) -> string)
    requires router.Valid()
    ensures Single(router.Candidates(skill), router.paths, query, generate).Ok?
  {
    var chosen := router.Candidates(skill);
    if chosen != [] {
      var key := if skill in router.skillMap then skill else "general";
      assert chosen == Lookup(router.skillMap, key);
      DeclarersMembership(router.models, key, chosen[0]);
      PathsDomain(router.models, chosen[0]);
    }
  }

  /** The first strategy for the skill decides when its method is "best":
      the answer is the output of a listed model that is at least as long as
      every other output and strictly longer than every earlier one. */
  lemma EnsembleBest(strats: seq<Strategy>, i: nat, skill: string, paths: map<string, string>,
                     query: string, generate: (string, string) -> string)
    requires i < |strats| && strats[i].skill == skill && strats[i].combine == "best"
    requires forall k :: 0 <= k < i ==> strats[k].skill != skill
    requires strats[i].models != [] && forall k :: 0 <= k < |strats[i].models| ==> strats[i].models[k] in paths
    ensures var names := strats[i].models;
            var r := Ensemble(strats, skill, paths, query, generate);
            r.Some? && r.value.Ok? &&
            exists k :: 0 <= k < |names| && r.value.value == generate(paths[names[k]], query) &&
              (forall j :: 0 <= j < |names| ==> |generate(paths[names[j]], query)| <= |r.value.value|) &&
              (forall j :: 0 <= j < k ==> |generate(paths[names[j]], query)| < |r.value.value|)
  {
    EnsembleSkip(strats, i, skill, paths, query, generate);
  }

  /** The first strategy for the skill decides when its method is "first":
      the answer is the output of its first model. */
  lemma EnsembleFirst(strats: seq<Strategy>, i: nat, skill: string, paths: map<string, string>,
                      query: string, generate: (string, string) -> string)
    requires i < |strats| && strats[i].skill == skill && strats[i].combine == "first"
    requires forall k :: 0 <= k < i ==> strats[k].skill != skill
    requires strats[i].models != [] && forall k :: 0 <= k < |strats[i].models| ==> strats[i].models[k] in paths
    ensures Ensemble(strats, skill, paths, query, generate) ==
            Some(Ok(generate(paths[strats[i].models[0]], query)))
  {
    EnsembleSkip(strats, i, skill, paths, query, generate);
  }

  /** A strategy of the skill with any other method is passed over, but its
      models still run first, so an unloaded name among them raises. */
  lemma EnsembleOtherMethod(strats: seq<Strategy>, skill: string, paths: map<string, string>,
                            query: string, generate: (string, string) -> string)
    requires strats != [] && strats[0].skill == skill
    requires strats[0].combine != "best" && strats[0].combine != "first"
    ensures (forall k :: 0 <= k < |strats[0].models| ==> strats[0].models[k] in paths) ==>
              Ensemble(strats, skill, paths, query, generate) == Ensemble(strats[1..], skill, paths, query, generate)
    ensures (exists k :: 0 <= k < |strats[0].models| && strats[0].models[k] !in paths) ==>
              Ensemble(strats, skill, paths, query, generate).value.Err?
  {
  }

  /** Strategies for other skills ahead of position `i` are skipped. */
  lemma {:induction false} EnsembleSkip(strats: seq<Strategy>, i: nat, skill: string, paths: map<string, string>,
                                        query: string, generate: (string, string) -> string)
    requires i <= |strats|
    requires forall k :: 0 <= k < i ==> strats[k].skill != skill
    ensures Ensemble(strats, skill, paths, query, generate) == Ensemble(strats[i..], skill, paths, query, generate)
  {
    if i > 0 {
      assert strats[1..][i - 1..] == strats[i..];
      EnsembleSkip(strats[1..], i - 1, skill, paths, query, generate);
    }
  }
}
