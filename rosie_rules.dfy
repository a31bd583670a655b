/**
 * The per-project cache of Rosie rules and rulesets.
 *
 * The Codiga server answers a request for the rulesets named in the
 * project's codiga.yml with a list of rulesets, each a name and its rules.
 * The cache keeps, per language, the rules paired with the name of their
 * ruleset, and per ruleset name whether it is empty. It also keeps the
 * ruleset names read from codiga.yml, the modification stamp of that file
 * (-1 while unset), the server's last-update timestamp and whether it was
 * ever filled.
 *
 * The new maps are computed from the payload as values first and then
 * installed into the fields.
 */
module RosieRules {
  import opened Wrappers

  /** A rule as the server sends it. `language` is the server's language name. */
  datatype RosieRule = RosieRule(id: string, language: string, content: string)

  /** One ruleset of the server's answer. */
  datatype RuleSetsForClient = RuleSetsForClient(name: string, rules: seq<RosieRule>)

  /** A rule paired with the name of the ruleset it came from. */
  datatype RuleWithNames = RuleWithNames(rulesetName: string, rosieRule: RosieRule)

  /** The cached rules of one language, in the order the payload lists them. */
  datatype RosieRulesCacheValue = RosieRulesCacheValue(rulesWithNames: seq<RuleWithNames>) {

    /** The rules alone, as sent to the Rosie service. */
    function GetRosieRules(): (r: seq<RosieRule>)
      ensures |r| == |rulesWithNames|
      ensures forall k :: 0 <= k < |r| ==> r[k] == rulesWithNames[k].rosieRule
    {
      seq(|rulesWithNames|, k requires 0 <= k < |rulesWithNames| => rulesWithNames[k].rosieRule)
    }

    /** The rules indexed by id. */
    function GetRules(): map<string, RuleWithNames>
    {
      RulesById(rulesWithNames)
    }
  }

  /** Rules indexed by id; a later rule with the same id replaces an earlier one. */
  function RulesById(rs: seq<RuleWithNames>): map<string, RuleWithNames>
  {
    if rs == [] then map[]
    else RulesById(rs[..|rs| - 1])[rs[|rs| - 1].rosieRule.id := rs[|rs| - 1]]
  }

  /** An id is indexed exactly when some rule has it, and it is indexed to one of those rules. */
  lemma {:induction false} RulesByIdSpec(rs: seq<RuleWithNames>, id: string)
    ensures id in RulesById(rs) <==> exists k :: 0 <= k < |rs| && rs[k].rosieRule.id == id
    ensures id in RulesById(rs) ==> RulesById(rs)[id] in rs && RulesById(rs)[id].rosieRule.id == id
    decreases |rs|
  {
    if rs != [] {
      var init := rs[..|rs| - 1];
      RulesByIdSpec(init, id);
      if id in RulesById(init) {
        var k :| 0 <= k < |init| && init[k].rosieRule.id == id;
        assert rs[k] == init[k];
      }
      if exists k :: 0 <= k < |rs| && rs[k].rosieRule.id == id {
        var k :| 0 <= k < |rs| && rs[k].rosieRule.id == id;
        if k < |init| {
          assert init[k] == rs[k];
        }
      }
    }
  }

  // ---------------------------------------------------------------------------
  // saveRulesets: name -> is-empty, collected with toMap (which throws on a repeated name).

  /** True when two rulesets of the payload share a name. */
  predicate HasDuplicateNames(p: seq<RuleSetsForClient>)
  {
    exists i, j :: 0 <= i < j < |p| && p[i].name == p[j].name
  }

  /** The ruleset-status map of a payload; `None` when toMap would throw on a repeated name. */
  function RulesetStatus(p: seq<RuleSetsForClient>): (r: Option<map<string, bool>>)
    ensures r.Some? ==> |r.value| == |p|
    decreases |p|
  {
    if p == [] then Some(map[])
    else
      match RulesetStatus(p[..|p| - 1])
      case None => None
      case Some(m) =>
        var last := p[|p| - 1];
        if last.name in m then None else Some(m[last.name := |last.rules| == 0])
  }

  /** The status map exists exactly when the payload's ruleset names are distinct. */
  lemma {:induction false} RulesetStatusDefined(p: seq<RuleSetsForClient>)
    ensures RulesetStatus(p).Some? <==> !HasDuplicateNames(p)
    decreases |p|
  {
    if p != [] {
      var init := p[..|p| - 1];
      var last := p[|p| - 1];
      RulesetStatusDefined(init);
      if HasDuplicateNames(init) {
        var i, j :| 0 <= i < j < |init| && init[i].name == init[j].name;
        assert p[i] == init[i] && p[j] == init[j];
      } else {
        RulesetStatusKeys(init);
        var m := RulesetStatus(init).value;
        if last.name in m {
          var rs :| rs in init && rs.name == last.name;
          var i :| 0 <= i < |init| && init[i] == rs;
          assert p[i] == init[i];
        } else {
          forall i, j | 0 <= i < j < |p| ensures p[i].name != p[j].name {
            assert p[i] == init[i];
            if j < |p| - 1 {
              assert p[j] == init[j];
            } else {
              assert init[i] in init;
            }
          }
        }
      }
    }
  }

  /** A status map holds exactly the payload's names. */
  lemma {:induction false} RulesetStatusKeys(p: seq<RuleSetsForClient>)
    requires RulesetStatus(p).Some?
    ensures RulesetStatus(p).value.Keys == set rs | rs in p :: rs.name
    decreases |p|
  {
    if p != [] {
      var init := p[..|p| - 1];
      RulesetStatusKeys(init);
      assert p == init + [p[|p| - 1]];
      assert (set rs | rs in p :: rs.name) == (set rs | rs in init :: rs.name) + {p[|p| - 1].name};
    }
  }

  /** A status map records for each ruleset of the payload whether its rule list is empty. */
  lemma {:induction false} RulesetStatusValues(p: seq<RuleSetsForClient>, i: int)
    requires RulesetStatus(p).Some? && 0 <= i < |p|
    ensures p[i].name in RulesetStatus(p).value
    ensures RulesetStatus(p).value[p[i].name] == (|p[i].rules| == 0)
    decreases |p|
  {
    var init := p[..|p| - 1];
    if i < |p| - 1 {
      RulesetStatusValues(init, i);
      assert init[i] == p[i];
    }
  }

  // ---------------------------------------------------------------------------
  // saveRulesByLanguages: every rule paired with its ruleset's name, grouped by
  // language, and keyed by the language enumeration (toMap again).

  /** The rules of one ruleset paired with its name. */
  function Paired(rs: RuleSetsForClient): (r: seq<RuleWithNames>)
    ensures |r| == |rs.rules|
    ensures forall j :: 0 <= j < |r| ==> r[j] == RuleWithNames(rs.name, rs.rules[j])
  {
    seq(|rs.rules|, j requires 0 <= j < |rs.rules| => RuleWithNames(rs.name, rs.rules[j]))
  }

  /** All rules of the payload, in order, paired with their ruleset's name (the flatMap). */
  function Flatten(p: seq<RuleSetsForClient>): seq<RuleWithNames>
  {
    if p == [] then [] else Paired(p[0]) + Flatten(p[1..])
  }

  /** A rule-with-names is in the flattened payload exactly when it pairs some rule with its ruleset's name. */
  lemma {:induction false} FlattenMembership(p: seq<RuleSetsForClient>, x: RuleWithNames)
    ensures x in Flatten(p) <==>
      exists i, j :: 0 <= i < |p| && 0 <= j < |p[i].rules| && x == RuleWithNames(p[i].name, p[i].rules[j])
  {
    if p != [] {
      FlattenMembership(p[1..], x);
      if x in Paired(p[0]) {
        var j :| 0 <= j < |p[0].rules| && Paired(p[0])[j] == x;
        assert x == RuleWithNames(p[0].name, p[0].rules[j]);
      }
      if exists i, j :: 0 <= i < |p| && 0 <= j < |p[i].rules| && x == RuleWithNames(p[i].name, p[i].rules[j]) {
        var i, j :| 0 <= i < |p| && 0 <= j < |p[i].rules| && x == RuleWithNames(p[i].name, p[i].rules[j]);
        if i == 0 {
          assert Paired(p[0])[j] == x;
        } else {
          assert p[1..][i - 1] == p[i];
        }
      }
    }
  }

  /** The language names used by some rule. */
  function LanguageNames(rs: seq<RuleWithNames>): set<string>
  {
    set r | r in rs :: r.rosieRule.language
  }

  /** True when two different language names map to the same enumeration constant (toMap throws). */
  predicate LanguagesCollide<L(==)>(names: set<string>, safeValueOf: string -> L)
  {
    exists a, b :: a in names && b in names && a != b && safeValueOf(a) == safeValueOf(b)
  }

  /** The rules whose language maps to `l`, in order. */
  function RulesOfLanguage<L(==)>(rs: seq<RuleWithNames>, l: L, safeValueOf: string -> L): (r: seq<RuleWithNames>)
    ensures forall x :: x in r <==> x in rs && safeValueOf(x.rosieRule.language) == l
  {
    if rs == [] then []
    else (if safeValueOf(rs[0].rosieRule.language) == l then [rs[0]] else []) + RulesOfLanguage(rs[1..], l, safeValueOf)
  }

  /** The group of a language keeps the payload's order and multiplicity: it splits over concatenation. */
  lemma {:induction false} RulesOfLanguageAppend<L>(a: seq<RuleWithNames>, b: seq<RuleWithNames>, l: L, safeValueOf: string -> L)
    ensures RulesOfLanguage(a + b, l, safeValueOf) == RulesOfLanguage(a, l, safeValueOf) + RulesOfLanguage(b, l, safeValueOf)
  {
    if a == [] {
      assert a + b == b;
    } else {
      assert (a + b)[0] == a[0];
      assert (a + b)[1..] == a[1..] + b;
      RulesOfLanguageAppend(a[1..], b, l, safeValueOf);
    }
  }

  /** The languages of a set of rules, as enumeration constants. */
  function Languages<L(==)>(rs: seq<RuleWithNames>, safeValueOf: string -> L): set<L>
  {
    set r | r in rs :: safeValueOf(r.rosieRule.language)
  }

  /** The per-language map of a payload; `None` when toMap would throw on two names for one language. */
  function RulesByLanguage<L(==)>(p: seq<RuleSetsForClient>, safeValueOf: string -> L): (r: Option<map<L, RosieRulesCacheValue>>)
    ensures r.Some? ==> forall l :: l in r.value ==> r.value[l].rulesWithNames != []
  {
    var all := Flatten(p);
    if LanguagesCollide(LanguageNames(all), safeValueOf) then None
    else Some(map l | l in Languages(all, safeValueOf) :: RosieRulesCacheValue(RulesOfLanguage(all, l, safeValueOf)))
  }

  /**
   * Without a collision, the group of each language is exactly the
   * groupingBy group of its one language name.
   */
  lemma {:induction false} GroupIsGroupingBy<L>(rs: seq<RuleWithNames>, name: string, safeValueOf: string -> L)
    requires !LanguagesCollide(LanguageNames(rs), safeValueOf) && name in LanguageNames(rs)
    ensures forall x :: x in RulesOfLanguage(rs, safeValueOf(name), safeValueOf) <==>
      x in rs && x.rosieRule.language == name
  {
    forall x | x in rs && safeValueOf(x.rosieRule.language) == safeValueOf(name)
      ensures x.rosieRule.language == name
    {
      assert x.rosieRule.language in LanguageNames(rs);
    }
  }

  /**
   * After a successful regrouping: the languages are exactly those of the
   * payload's rules, and each language holds exactly the payload's rules of
   * that language, paired with their ruleset's name.
   */
  lemma RulesByLanguageSpec<L>(p: seq<RuleSetsForClient>, safeValueOf: string -> L, l: L, x: RuleWithNames)
    requires RulesByLanguage(p, safeValueOf).Some?
    ensures l in RulesByLanguage(p, safeValueOf).value <==>
      exists i, j :: 0 <= i < |p| && 0 <= j < |p[i].rules| && safeValueOf(p[i].rules[j].language) == l
    ensures l in RulesByLanguage(p, safeValueOf).value ==>
      (x in RulesByLanguage(p, safeValueOf).value[l].rulesWithNames <==>
        exists i, j :: 0 <= i < |p| && 0 <= j < |p[i].rules| && x == RuleWithNames(p[i].name, p[i].rules[j])
          && safeValueOf(p[i].rules[j].language) == l)
  {
    var all := Flatten(p);
    FlattenMembership(p, x);
    if exists i, j :: 0 <= i < |p| && 0 <= j < |p[i].rules| && safeValueOf(p[i].rules[j].language) == l {
      var i, j :| 0 <= i < |p| && 0 <= j < |p[i].rules| && safeValueOf(p[i].rules[j].language) == l;
      FlattenMembership(p, RuleWithNames(p[i].name, p[i].rules[j]));
    }
    if l in Languages(all, safeValueOf) {
      var r :| r in all && safeValueOf(r.rosieRule.language) == l;
      FlattenMembership(p, r);
    }
  }

  /** The outcome of updateCacheFrom: done, or the exception a toMap threw. */
  datatype UpdateOutcome = Updated | DuplicateRulesetName | DuplicateLanguage

  // ---------------------------------------------------------------------------

  /** The cache object. `L` is the language enumeration; `safeValueOf` maps server names to it. */
  class RosieRulesCache<L(==)> {
    const safeValueOf: string -> L
    var cache: map<L, RosieRulesCacheValue>
    var lastUpdatedTimeStamp: int
    var configFileModificationStamp: int
    var rulesetNames: seq<string>
    var rulesetsFromServer: map<string, bool>
    var isInitialized: bool
    /** How many times the open codiga.yml was sent back to the highlighter. */
    ghost var reanalysisRequests: nat

    constructor (safeValueOf: string -> L)
      ensures this.safeValueOf == safeValueOf
      ensures cache == map[] && rulesetNames == [] && rulesetsFromServer == map[]
      ensures lastUpdatedTimeStamp == -1 && configFileModificationStamp == -1
      ensures !isInitialized && reanalysisRequests == 0
    {
      this.safeValueOf := safeValueOf;
      cache := map[];
      lastUpdatedTimeStamp := -1;
      configFileModificationStamp := -1;
      rulesetNames := [];
      rulesetsFromServer := map[];
      isInitialized := false;
      reanalysisRequests := 0;
    }

    /** The config file (given by its modification stamp) differs from the one last saved. */
    predicate HasDifferentModificationStampThan(stamp: int)
      reads this
    {
      stamp != configFileModificationStamp
    }

    method SaveModificationStampOf(stamp: int)
      modifies this
      ensures configFileModificationStamp == stamp && !HasDifferentModificationStampThan(stamp)
      ensures cache == old(cache) && rulesetNames == old(rulesetNames) && rulesetsFromServer == old(rulesetsFromServer)
      ensures lastUpdatedTimeStamp == old(lastUpdatedTimeStamp) && isInitialized == old(isInitialized)
      ensures reanalysisRequests == old(reanalysisRequests)
    {
      configFileModificationStamp := stamp;
    }

    method SetRulesetNames(names: seq<string>)
      modifies this
      ensures rulesetNames == names
      ensures cache == old(cache) && rulesetsFromServer == old(rulesetsFromServer)
      ensures lastUpdatedTimeStamp == old(lastUpdatedTimeStamp) && isInitialized == old(isInitialized)
      ensures configFileModificationStamp == old(configFileModificationStamp)
      ensures reanalysisRequests == old(reanalysisRequests)
    {
      rulesetNames := names;
    }

    method SetLastUpdatedTimeStamp(timestamp: int)
      modifies this
      ensures lastUpdatedTimeStamp == timestamp
      ensures cache == old(cache) && rulesetNames == old(rulesetNames) && rulesetsFromServer == old(rulesetsFromServer)
      ensures isInitialized == old(isInitialized) && configFileModificationStamp == old(configFileModificationStamp)
      ensures reanalysisRequests == old(reanalysisRequests)
    {
      lastUpdatedTimeStamp := timestamp;
    }

    /** The server knows the ruleset. */
    predicate IsRulesetExist(name: string)
      reads this
    {
      name in rulesetsFromServer
    }

    /** The server's ruleset has no rules; only defined for a known ruleset. */
    predicate IsRulesetEmpty(name: string)
      reads this
      requires IsRulesetExist(name)
    {
      rulesetsFromServer[name]
    }

    /**
     * Rebuilds both maps from the server's answer. The ruleset statuses are
     * installed first, then the per-language rules; a toMap exception in
     * either step ends the update there.
     */
    method UpdateCacheFrom(p: seq<RuleSetsForClient>) returns (outcome: UpdateOutcome)
      modifies this
      ensures RulesetStatus(p).None? ==>
        outcome == DuplicateRulesetName && rulesetsFromServer == old(rulesetsFromServer)
        && cache == old(cache) && isInitialized == old(isInitialized) && reanalysisRequests == old(reanalysisRequests)
      ensures RulesetStatus(p).Some? ==> rulesetsFromServer == RulesetStatus(p).value
      ensures RulesetStatus(p).Some? && RulesByLanguage(p, safeValueOf).None? ==>
        outcome == DuplicateLanguage
        && cache == old(cache) && isInitialized == old(isInitialized) && reanalysisRequests == old(reanalysisRequests)
      ensures RulesetStatus(p).Some? && RulesByLanguage(p, safeValueOf).Some? ==>
        outcome == Updated && cache == RulesByLanguage(p, safeValueOf).value
        && isInitialized && reanalysisRequests == old(reanalysisRequests) + 1
      ensures rulesetNames == old(rulesetNames) && lastUpdatedTimeStamp == old(lastUpdatedTimeStamp)
      ensures configFileModificationStamp == old(configFileModificationStamp)
    {
      var ok := SaveRulesets(p);
      if !ok {
        return DuplicateRulesetName;
      }
      ok := SaveRulesByLanguages(p);
      if !ok {
        return DuplicateLanguage;
      }
      reanalysisRequests := reanalysisRequests + 1;
      isInitialized := true;
      outcome := Updated;
    }

    /** Computes the status map, then clears the field and copies it in; a repeated name throws first. */
    method SaveRulesets(p: seq<RuleSetsForClient>) returns (ok: bool)
      modifies this
      ensures ok == RulesetStatus(p).Some?
      ensures rulesetsFromServer == if ok then RulesetStatus(p).value else old(rulesetsFromServer)
      ensures cache == old(cache) && isInitialized == old(isInitialized) && reanalysisRequests == old(reanalysisRequests)
      ensures rulesetNames == old(rulesetNames) && lastUpdatedTimeStamp == old(lastUpdatedTimeStamp)
      ensures configFileModificationStamp == old(configFileModificationStamp)
    {
      var rulesets := RulesetStatus(p);
      if rulesets.None? {
        return false;
      }
      rulesetsFromServer := map[];
      rulesetsFromServer := rulesetsFromServer + rulesets.value;
      assert rulesetsFromServer == rulesets.value;
      ok := true;
    }

    /** Computes the per-language map, then clears the field and copies it in; a language collision throws first. */
    method SaveRulesByLanguages(p: seq<RuleSetsForClient>) returns (ok: bool)
      modifies this
      ensures ok == RulesByLanguage(p, safeValueOf).Some?
      ensures cache == if ok then RulesByLanguage(p, safeValueOf).value else old(cache)
      ensures rulesetsFromServer == old(rulesetsFromServer)
      ensures isInitialized == old(isInitialized) && reanalysisRequests == old(reanalysisRequests)
      ensures rulesetNames == old(rulesetNames) && lastUpdatedTimeStamp == old(lastUpdatedTimeStamp)
      ensures configFileModificationStamp == old(configFileModificationStamp)
    {
      var rulesByLanguage := RulesByLanguage(p, safeValueOf);
      if rulesByLanguage.None? {
        return false;
      }
      cache := map[];
      cache := cache + rulesByLanguage.value;
      assert cache == rulesByLanguage.value;
      ok := true;
    }

    /** The rules to send to the Rosie service for a language; empty when it has none. */
    function GetRosieRulesForLanguage(language: L): (r: seq<RosieRule>)
      reads this
      ensures language !in cache ==> r == []
      ensures language in cache ==> |r| == |cache[language].rulesWithNames|
      ensures language in cache ==> forall k :: 0 <= k < |r| ==> r[k] == cache[language].rulesWithNames[k].rosieRule
    {
      if language in cache then cache[language].GetRosieRules() else []
    }

    /** The cached rule with an id; the language must be cached. `None` is Java's null. */
    function GetRuleWithNamesFor(language: L, ruleId: string): (r: Option<RuleWithNames>)
      reads this
      requires language in cache
      ensures r.Some? <==> exists k :: (0 <= k < |cache[language].rulesWithNames|
                                        && cache[language].rulesWithNames[k].rosieRule.id == ruleId)
      ensures r.Some? ==> r.value in cache[language].rulesWithNames && r.value.rosieRule.id == ruleId
    {
      RulesByIdSpec(cache[language].rulesWithNames, ruleId);
      var rules := cache[language].GetRules();
      if ruleId in rules then Some(rules[ruleId]) else None
    }

    /** Empties the maps and the names; the config-file stamp and the initialised flag stay. */
    method Clear()
      modifies this
      ensures cache == map[] && rulesetNames == [] && rulesetsFromServer == map[]
      ensures lastUpdatedTimeStamp == -1
      ensures configFileModificationStamp == old(configFileModificationStamp)
      ensures isInitialized == old(isInitialized) && reanalysisRequests == old(reanalysisRequests)
    {
      if cache != map[] {
        cache := map[];
      }
      if rulesetNames != [] {
        rulesetNames := [];
      }
      if rulesetsFromServer != map[] {
        rulesetsFromServer := map[];
      }
      lastUpdatedTimeStamp := -1;
    }

    /** Disposal on project close is a Clear. */
    method Dispose()
      modifies this
      ensures cache == map[] && rulesetNames == [] && rulesetsFromServer == map[]
      ensures lastUpdatedTimeStamp == -1
      ensures configFileModificationStamp == old(configFileModificationStamp)
      ensures isInitialized == old(isInitialized) && reanalysisRequests == old(reanalysisRequests)
    {
      Clear();
    }
  }

  // ---------------------------------------------------------------------------
  // What the getters answer on the state an update leaves.

  /**
   * After a successful update from `p`, the rules for a language are
   * exactly the payload's rules of that language, and a ruleset exists
   * exactly when `p` names it, being empty exactly when its rule list is.
   */
  lemma {:induction false} RulesAfterUpdate<L>(c: RosieRulesCache<L>, p: seq<RuleSetsForClient>, l: L, rule: RosieRule)
    requires RulesetStatus(p).Some? && c.rulesetsFromServer == RulesetStatus(p).value
    requires RulesByLanguage(p, c.safeValueOf).Some? && c.cache == RulesByLanguage(p, c.safeValueOf).value
    ensures rule in c.GetRosieRulesForLanguage(l) <==>
      exists i :: 0 <= i < |p| && rule in p[i].rules && c.safeValueOf(rule.language) == l
  {
    var rs := c.GetRosieRulesForLanguage(l);
    if rule in rs {
      var k :| 0 <= k < |rs| && rs[k] == rule;
      var x := c.cache[l].rulesWithNames[k];
      RulesByLanguageSpec(p, c.safeValueOf, l, x);
      var i, j :| 0 <= i < |p| && 0 <= j < |p[i].rules| && x == RuleWithNames(p[i].name, p[i].rules[j])
        && c.safeValueOf(p[i].rules[j].language) == l;
      assert p[i].rules[j] == rule;
    }
    if exists i :: 0 <= i < |p| && rule in p[i].rules && c.safeValueOf(rule.language) == l {
      var i :| 0 <= i < |p| && rule in p[i].rules && c.safeValueOf(rule.language) == l;
      var j :| 0 <= j < |p[i].rules| && p[i].rules[j] == rule;
      var x := RuleWithNames(p[i].name, rule);
      RulesByLanguageSpec(p, c.safeValueOf, l, x);
      var k :| 0 <= k < |c.cache[l].rulesWithNames| && c.cache[l].rulesWithNames[k] == x;
      assert rs[k] == rule;
    }
  }

  /** After an update, the ruleset queries answer from the payload. */
  lemma RulesetsAfterUpdate<L>(c: RosieRulesCache<L>, p: seq<RuleSetsForClient>, name: string)
    requires RulesetStatus(p).Some? && c.rulesetsFromServer == RulesetStatus(p).value
    ensures c.IsRulesetExist(name) <==> exists i :: 0 <= i < |p| && p[i].name == name
    ensures forall i :: 0 <= i < |p| && p[i].name == name ==> (c.IsRulesetEmpty(name) <==> |p[i].rules| == 0)
  {
    RulesetStatusKeys(p);
    forall i | 0 <= i < |p| && p[i].name == name ensures c.IsRulesetEmpty(name) <==> |p[i].rules| == 0 {
      RulesetStatusValues(p, i);
    }
    if name in c.rulesetsFromServer {
      var rs :| rs in p && rs.name == name;
      var i :| 0 <= i < |p| && p[i] == rs;
    }
  }

  /** The stamp check has no special case for the unset value -1. */
  lemma StampUnsetIsNotSpecial<L>(c: RosieRulesCache<L>, stamp: int)
    requires c.configFileModificationStamp == -1
    ensures c.HasDifferentModificationStampThan(stamp) <==> stamp != -1
  {
  }
}
