/** The router's first-match firewall (bp_router/acl.py) and the suite's boot-time merge
    of its own rules with an administrator's (bp_agents/acl.py). */
module Acl {
  import opened Options

  datatype Effect = Allow | Deny

  datatype Rule = Rule(ord: int, id: Option<string>, name: Option<string>, description: Option<string>,
                       effect: Effect, level: string, caller: string, callee: string)

  datatype View = View(id: string, groups: set<string>, capabilities: set<string>)

  datatype Decision = Decision(allow: bool, ruleName: string)

  datatype Skip = BadLevel | BadCaller | BadCallee

  datatype TraceStep = TraceStep(id: Option<string>, name: Option<string>, matched: bool, skipped: Option<Skip>)

  // ------------------------------------------------------------ user levels

  predicate AllDigits(s: string) {
    forall i :: 0 <= i < |s| ==> '0' <= s[i] <= '9'
  }

  function Digit(c: char): nat
    requires '0' <= c <= '9'
  {
    c as int - 48
  }

  function ParseNat(s: string): nat
    requires AllDigits(s)
  {
    if s == [] then 0
    else
      var last := s[|s| - 1];
      10 * ParseNat(s[..|s| - 1]) + Digit(last)
  }

  /** Python's `$` also matches before one final newline. */
  function Chomp(s: string): string {
    if s != "" && s[|s| - 1] == '\n' then s[..|s| - 1] else s
  }

  /** tier_index: -1 for the principals above every tier. */
  function TierIndex(level: string): Option<int> {
    var tier := Chomp(level);
    if level == "admin" || level == "service" then Option<int>.Some(-1)
    else if |tier| > 4 && tier[..4] == "tier" && AllDigits(tier[4..]) then Some(ParseNat(tier[4..]) as int)
    else None
  }

  /** user_level_satisfies. `actual` is None for an unknown caller. */
  predicate LevelSatisfies(actual: Option<string>, rule: string) {
    if rule == "*" then true
    else if rule == "admin" || rule == "service" then actual == Some(rule)
    else
      var ceiling, index := TierIndex(rule), if actual.Some? then TierIndex(actual.value) else None;
      ceiling.Some? && index.Some? && index.value <= ceiling.value
  }

  /** What a well-formed level means. */
  datatype Level = Anyone | Admin | Service | Tier(n: nat)

  function RenderNat(n: nat): string {
    (if n < 10 then [] else RenderNat(n / 10)) + [('0' as int + n % 10) as char]
  }

  function RenderLevel(l: Level): string {
    match l
    case Anyone => "*"
    case Admin => "admin"
    case Service => "service"
    case Tier(n) => "tier" + RenderNat(n)
  }

  /** A tier admits itself and every stricter one; administrators and services pass every
      tier, and are admitted by name only themselves. */
  predicate Admits(rule: Level, actual: Option<Level>) {
    match rule
    case Anyone => true
    case Tier(n) => actual.Some? && (actual.value.Admin? || actual.value.Service? || (actual.value.Tier? && actual.value.n <= n))
    case _ => actual == Some(rule)
  }

  lemma {:induction false} ParseInvertsRender(n: nat)
    ensures RenderNat(n) != "" && AllDigits(RenderNat(n)) && ParseNat(RenderNat(n)) == n
  {
    var s := RenderNat(n);
    if n >= 10 {
      ParseInvertsRender(n / 10);
      assert s[..|s| - 1] == RenderNat(n / 10);
    } else {
      assert s[..0] == [];
    }
  }

  lemma TierOfLevel(l: Level)
    ensures TierIndex(RenderLevel(l)) == match l
                                         case Anyone => None
                                         case Tier(n) => Some(n as int)
                                         case _ => Option<int>.Some(-1)
  {
    if l.Tier? {
      ParseInvertsRender(l.n);
      var s := RenderLevel(l);
      assert s[4..] == RenderNat(l.n) && s[..4] == "tier";
      assert s[|s| - 1] == RenderNat(l.n)[|RenderNat(l.n)| - 1] && Chomp(s) == s;
    }
  }

  /** The string comparison decides every well-formed level by its meaning. */
  lemma LevelMeaning(rule: Level, actual: Option<Level>)
    requires actual != Some(Anyone)
    ensures LevelSatisfies(if actual.Some? then Some(RenderLevel(actual.value)) else None, RenderLevel(rule)) <==> Admits(rule, actual)
  {
    TierOfLevel(rule);
    if actual.Some? { TierOfLevel(actual.value); }
    if rule.Tier? { assert RenderLevel(rule)[0] == 't'; }
    if actual.Some? && actual.value.Tier? { assert RenderLevel(actual.value)[0] == 't'; }
  }

  // ------------------------------------------------------------ patterns

  /** Python's str.partition on one character; the tail is empty without a separator. */
  function Partition(s: string, c: char): (string, string) {
    if s == [] then ("", "")
    else if s[0] == c then ("", s[1..])
    else var (head, tail) := Partition(s[1..], c); ([s[0]] + head, tail)
  }

  predicate IsGlob(cap: string) {
    |cap| >= 2 && cap[|cap| - 2..] == ".*"
  }

  predicate MatchesPattern(pattern: string, v: View) {
    if "@" <= pattern then pattern[1..] == v.id
    else
      var (group, cap) := Partition(pattern, '/');
      (group == "*" || group in v.groups) &&
      (if cap == "*" then true
       else if IsGlob(cap) then exists c :: c in v.capabilities && cap[..|cap| - 1] <= c
       else cap in v.capabilities)
  }

  /** What a legal pattern means. */
  datatype Half = Any | Exact(text: string) | Under(prefix: string)
  datatype Pattern = Agent(id: string) | Slash(group: Half, cap: Half)

  predicate Legal(p: Pattern) {
    match p
    case Agent(_) => true
    case Slash(group, cap) =>
      && !group.Under?
      && (group.Exact? ==> '/' !in group.text && group.text != "*" && !("@" <= group.text))
      && (cap.Exact? ==> cap.text != "*" && !IsGlob(cap.text))
      && (cap.Under? ==> cap.prefix != "")
  }

  function RenderHalf(h: Half): string {
    match h
    case Any => "*"
    case Exact(text) => text
    case Under(prefix) => prefix + ".*"
  }

  function Render(p: Pattern): string {
    match p
    case Agent(id) => "@" + id
    case Slash(group, cap) => RenderHalf(group) + "/" + RenderHalf(cap)
  }

  predicate Means(p: Pattern, v: View) {
    match p
    case Agent(id) => id == v.id
    case Slash(group, cap) =>
      && (group.Any? || (group.Exact? && group.text in v.groups))
      && (match cap
          case Any => true
          case Exact(text) => text in v.capabilities
          case Under(prefix) => exists c :: c in v.capabilities && prefix + "." <= c)
  }

  lemma {:induction false} PartitionAt(head: string, c: char, tail: string)
    requires c !in head
    ensures Partition(head + [c] + tail, c) == (head, tail)
  {
    var whole := head + [c] + tail;
    if head == [] {
      assert whole == [c] + tail;
      assert whole[0] == c && whole[1..] == tail;
      assert Partition(whole, c) == ("", tail);
    } else {
      assert whole[0] == head[0] && whole[0] in head;
      assert whole[1..] == head[1..] + [c] + tail;
      PartitionAt(head[1..], c, tail);
      assert [head[0]] + head[1..] == head;
    }
  }

  /** The string matcher decides every legal pattern by its meaning: a `prefix.*` glob
      matches capabilities strictly below the prefix, never the prefix itself. */
  lemma PatternMeaning(p: Pattern, v: View)
    requires Legal(p)
    ensures MatchesPattern(Render(p), v) <==> Means(p, v)
  {
    match p
    case Agent(id) => assert ("@" + id)[1..] == id;
    case Slash(group, cap) =>
      var g, c := RenderHalf(group), RenderHalf(cap);
      PartitionAt(g, '/', c);
      assert g + "/" + c == g + ['/'] + c;
      assert !("@" <= Render(p)) by { if |g| > 0 { assert Render(p)[0] == g[0]; } }
      match cap {
        case Any =>
        case Exact(text) =>
        case Under(prefix) =>
          assert IsGlob(c) && c[..|c| - 1] == prefix + ".";
          assert c != "*";
      }
  }

  // ------------------------------------------------------------ evaluation

  predicate RuleMatches(r: Rule, caller: View, callee: View, level: Option<string>) {
    LevelSatisfies(level, r.level) && MatchesPattern(r.caller, caller) && MatchesPattern(r.callee, callee)
  }

  /** The first rule that matches, by position. */
  function FirstMatch(rules: seq<Rule>, caller: View, callee: View, level: Option<string>): Option<Rule> {
    if rules == [] then None
    else if RuleMatches(rules[0], caller, callee, level) then Some(rules[0])
    else FirstMatch(rules[1..], caller, callee, level)
  }

  predicate NonEmpty(s: Option<string>) { s.Some? && s.value != "" }

  /** `rule.name or rule.rule_id or "<unnamed>"`. */
  function Label(r: Rule): string {
    if NonEmpty(r.name) then r.name.value else if NonEmpty(r.id) then r.id.value else "<unnamed>"
  }

  function Decide(rules: seq<Rule>, caller: View, callee: View, level: Option<string>): Decision {
    if caller.id == callee.id then Decision(false, "<self_call>")
    else
      match FirstMatch(rules, caller, callee, level)
      case None => Decision(false, "<default>")
      case Some(r) => Decision(r.effect == Allow, Label(r))
  }

  lemma {:induction false} FirstMatchSpec(rules: seq<Rule>, caller: View, callee: View, level: Option<string>, i: nat)
    requires i <= |rules|
    requires forall k :: 0 <= k < i ==> !RuleMatches(rules[k], caller, callee, level)
    ensures FirstMatch(rules, caller, callee, level) == FirstMatch(rules[i..], caller, callee, level)
  {
    if i > 0 {
      assert rules[1..][i - 1..] == rules[i..];
      FirstMatchSpec(rules[1..], caller, callee, level, i - 1);
    } else {
      assert rules[0..] == rules;
    }
  }

  /** A rule of well-formed level and patterns applies exactly when all three admit. */
  lemma RuleMeaning(r: Rule, l: Level, p: Pattern, q: Pattern, caller: View, callee: View, actual: Option<Level>)
    requires Legal(p) && Legal(q) && actual != Some(Anyone)
    requires r.level == RenderLevel(l) && r.caller == Render(p) && r.callee == Render(q)
    ensures RuleMatches(r, caller, callee, if actual.Some? then Some(RenderLevel(actual.value)) else None) <==>
            Admits(l, actual) && Means(p, caller) && Means(q, callee)
  {
    LevelMeaning(l, actual);
    PatternMeaning(p, caller);
    PatternMeaning(q, callee);
  }

  /** The decision is the effect of the first rule that applies, wherever it stands; without
      one, and to oneself, it is denial. */
  lemma FirstRuleDecides(rules: seq<Rule>, caller: View, callee: View, level: Option<string>, i: nat)
    requires i <= |rules| && forall k :: 0 <= k < i ==> !RuleMatches(rules[k], caller, callee, level)
    requires i < |rules| ==> RuleMatches(rules[i], caller, callee, level)
    ensures Decide(rules, caller, callee, level).allow <==> caller.id != callee.id && i < |rules| && rules[i].effect == Allow
    ensures caller.id != callee.id ==>
              Decide(rules, caller, callee, level).ruleName == if i < |rules| then Label(rules[i]) else "<default>"
  {
    FirstMatchSpec(rules, caller, callee, level, i);
  }

  /** Why a rule does not apply: the first of its three tests that fails. */
  function SkipReason(r: Rule, caller: View, callee: View, level: Option<string>): Option<Skip> {
    if !LevelSatisfies(level, r.level) then Some(BadLevel)
    else if !MatchesPattern(r.caller, caller) then Some(BadCaller)
    else if !MatchesPattern(r.callee, callee) then Some(BadCallee)
    else None
  }

  /** is_allowed: walk in order, return at the first match, deny by default; one trace
      step per rule considered, with its reason, only the last of them a match. */
  method IsAllowed(rules: seq<Rule>, caller: View, callee: View, level: Option<string>)
    returns (d: Decision, trace: seq<TraceStep>)
    ensures d == Decide(rules, caller, callee, level)
    ensures caller.id != callee.id ==> |trace| <= |rules|
    ensures caller.id != callee.id ==>
              forall k :: 0 <= k < |trace| ==>
                trace[k].matched == RuleMatches(rules[k], caller, callee, level) &&
                (trace[k].matched ==> k == |trace| - 1) && trace[k].name == rules[k].name && trace[k].id == rules[k].id &&
                trace[k].skipped == SkipReason(rules[k], caller, callee, level)
    ensures caller.id != callee.id && |trace| < |rules| ==> trace != [] && trace[|trace| - 1].matched
  {
    if caller.id == callee.id {
      return Decision(false, "<self_call>"), [TraceStep(None, Some("<self_call>"), true, None)];
    }
    trace := [];
    var i := 0;
    while i < |rules|
      invariant i <= |rules| && |trace| == i
      invariant forall k :: 0 <= k < i ==> !RuleMatches(rules[k], caller, callee, level)
      invariant forall k :: 0 <= k < i ==>
                  !trace[k].matched && trace[k].name == rules[k].name && trace[k].id == rules[k].id &&
                  trace[k].skipped == SkipReason(rules[k], caller, callee, level)
    {
      var r := rules[i];
      if !LevelSatisfies(level, r.level) {
        trace := trace + [TraceStep(r.id, r.name, false, Some(BadLevel))];
      } else if !MatchesPattern(r.caller, caller) {
        trace := trace + [TraceStep(r.id, r.name, false, Some(BadCaller))];
      } else if !MatchesPattern(r.callee, callee) {
        trace := trace + [TraceStep(r.id, r.name, false, Some(BadCallee))];
      } else {
        trace := trace + [TraceStep(r.id, r.name, true, None)];
        FirstMatchSpec(rules, caller, callee, level, i);
        return Decision(r.effect == Allow, Label(r)), trace;
      }
      i := i + 1;
    }
    FirstMatchSpec(rules, caller, callee, level, i);
    d := Decision(false, "<default>");
  }

  // ------------------------------------------------------------ sorting by ord

  function Insert(r: Rule, sorted: seq<Rule>): seq<Rule> {
    if sorted == [] then [r]
    else if r.ord <= sorted[0].ord then [r] + sorted
    else [sorted[0]] + Insert(r, sorted[1..])
  }

  /** Python's stable sort on ord. */
  function SortByOrd(rules: seq<Rule>): seq<Rule> {
    if rules == [] then [] else Insert(rules[0], SortByOrd(rules[1..]))
  }

  predicate Sorted(rules: seq<Rule>) {
    forall i, j :: 0 <= i < j < |rules| ==> rules[i].ord <= rules[j].ord
  }

  /** A rule the suite owns: refreshed by the merge, never preserved. */
  predicate Owned(r: Rule, suite: seq<Rule>) {
    r.name.Some? && exists i :: 0 <= i < |suite| && suite[i].name == r.name
  }

  /** The rules an administrator added, in their own order. */
  function Custom(rules: seq<Rule>, suite: seq<Rule>): seq<Rule> {
    if rules == [] then []
    else (if Owned(rules[0], suite) then [] else [rules[0]]) + Custom(rules[1..], suite)
  }

  lemma ConsSorted(sorted: seq<Rule>, r: Rule, rest: seq<Rule>)
    requires Sorted(sorted) && sorted != [] && sorted[0].ord <= r.ord && Sorted(rest)
    requires forall x :: x in rest ==> x == r || x in sorted
    ensures Sorted([sorted[0]] + rest)
  {
    forall i | 0 <= i < |rest| ensures sorted[0].ord <= rest[i].ord {
      assert rest[i] in rest;
    }
  }

  lemma {:induction false} InsertSorted(r: Rule, sorted: seq<Rule>)
    requires Sorted(sorted)
    ensures Sorted(Insert(r, sorted)) && multiset(Insert(r, sorted)) == multiset(sorted) + multiset{r}
    ensures forall x :: x in Insert(r, sorted) <==> x == r || x in sorted
  {
    if sorted != [] && r.ord > sorted[0].ord {
      InsertSorted(r, sorted[1..]);
      assert sorted == [sorted[0]] + sorted[1..];
      ConsSorted(sorted, r, Insert(r, sorted[1..]));
    } else if sorted != [] {
      assert Insert(r, sorted) == [r] + sorted;
    }
  }

  /** The rules of one position, in their order. */
  function WithOrd(rules: seq<Rule>, ord: int): seq<Rule> {
    if rules == [] then [] else (if rules[0].ord == ord then [rules[0]] else []) + WithOrd(rules[1..], ord)
  }

  lemma {:induction false} InsertWithOrd(r: Rule, sorted: seq<Rule>, ord: int)
    ensures WithOrd(Insert(r, sorted), ord) == (if r.ord == ord then [r] else []) + WithOrd(sorted, ord)
  {
    if sorted == [] {
    } else if r.ord <= sorted[0].ord {
      assert ([r] + sorted)[1..] == sorted;
    } else {
      assert Insert(r, sorted)[1..] == Insert(r, sorted[1..]);
      InsertWithOrd(r, sorted[1..], ord);
    }
  }

  /** The sort is stable: rules of equal ord keep their order. */
  lemma {:induction false} SortStable(rules: seq<Rule>, ord: int)
    ensures WithOrd(SortByOrd(rules), ord) == WithOrd(rules, ord)
  {
    if rules != [] {
      SortStable(rules[1..], ord);
      InsertWithOrd(rules[0], SortByOrd(rules[1..]), ord);
    }
  }

  /** The sort orders and loses nothing. */
  lemma {:induction false} SortSpec(rules: seq<Rule>)
    ensures Sorted(SortByOrd(rules)) && multiset(SortByOrd(rules)) == multiset(rules)
  {
    if rules != [] {
      SortSpec(rules[1..]);
      InsertSorted(rules[0], SortByOrd(rules[1..]));
      assert rules == [rules[0]] + rules[1..];
    }
  }

  lemma {:induction false} CustomMember(rules: seq<Rule>, suite: seq<Rule>)
    ensures forall x :: x in Custom(rules, suite) <==> x in rules && !Owned(x, suite)
  {
    if rules != [] {
      CustomMember(rules[1..], suite);
      assert rules == [rules[0]] + rules[1..];
    }
  }

  lemma {:induction false} CustomAppend(a: seq<Rule>, b: seq<Rule>, suite: seq<Rule>)
    ensures Custom(a + b, suite) == Custom(a, suite) + Custom(b, suite)
  {
    if a == [] {
      assert a + b == b;
    } else {
      assert (a + b)[1..] == a[1..] + b;
      CustomAppend(a[1..], b, suite);
    }
  }

  lemma {:induction false} CustomInsert(r: Rule, sorted: seq<Rule>, suite: seq<Rule>)
    requires Sorted(sorted)
    ensures Custom(Insert(r, sorted), suite) ==
            if Owned(r, suite) then Custom(sorted, suite) else Insert(r, Custom(sorted, suite))
  {
    if sorted == [] {
    } else if r.ord <= sorted[0].ord {
      assert ([r] + sorted)[1..] == sorted;
      CustomMember(sorted, suite);
      if !Owned(r, suite) && Custom(sorted, suite) != [] { assert Custom(sorted, suite)[0] in sorted; }
    } else {
      var tail := Insert(r, sorted[1..]);
      assert Insert(r, sorted)[1..] == tail;
      CustomInsert(r, sorted[1..], suite);
      if Owned(sorted[0], suite) {
        assert Custom(sorted, suite) == Custom(sorted[1..], suite);
        assert Custom(Insert(r, sorted), suite) == Custom(tail, suite);
      } else {
        assert Custom(sorted, suite)[1..] == Custom(sorted[1..], suite);
      }
    }
  }

  /** Selecting the custom rules and sorting commute. */
  lemma {:induction false} CustomSort(rules: seq<Rule>, suite: seq<Rule>)
    ensures Custom(SortByOrd(rules), suite) == SortByOrd(Custom(rules, suite))
  {
    if rules != [] {
      CustomSort(rules[1..], suite);
      SortSpec(rules[1..]);
      CustomInsert(rules[0], SortByOrd(rules[1..]), suite);
      if Owned(rules[0], suite) {
        assert Custom(rules, suite) == Custom(rules[1..], suite);
      } else {
        assert Custom(rules, suite)[1..] == Custom(rules[1..], suite);
      }
    }
  }

  /** A list already in order is left alone. */
  lemma {:induction false} SortedIsFixed(rules: seq<Rule>)
    requires Sorted(rules)
    ensures SortByOrd(rules) == rules
  {
    if rules != [] {
      SortedIsFixed(rules[1..]);
      assert rules == [rules[0]] + rules[1..];
    }
  }

  /** RuleSet: the evaluator's list, sorted whenever it is replaced. */
  class RuleSet {
    var rules: seq<Rule>

    constructor (rules: seq<Rule>)
      ensures this.rules == SortByOrd(rules) && Sorted(this.rules)
    {
      SortSpec(rules);
      this.rules := SortByOrd(rules);
    }

    method Replace(rules: seq<Rule>)
      modifies this
      ensures this.rules == SortByOrd(rules) && Sorted(this.rules)
      ensures multiset(this.rules) == multiset(rules)
    {
      SortSpec(rules);
      this.rules := SortByOrd(rules);
    }
  }

  // ------------------------------------------------------------ the suite's merge

  function SuiteRule(level: string, caller: string, callee: string, name: string): Rule {
    Rule(0, None, Some(name), None, Allow, level, caller, callee)
  }

  const SUITE: seq<Rule> := [
    SuiteRule("*", "l0/*", "l1/*", "orchestrator→l1 (subagent + hand-off)"),
    SuiteRule("*", "l1/agent.orchestration", "l1/*", "deep_reasoning→l1"),
    SuiteRule("*", "l1/*", "l0/agent.orchestration", "l1→orchestrator (execute_step / end_delegation)"),
    SuiteRule("*", "channel/*", "l0/*", "user message → orchestrator"),
    SuiteRule("*", "channel/*", "l1/*", "user message → delegate"),
    SuiteRule("*", "l0/*", "channel/*", "orchestrator → channel push"),
    SuiteRule("*", "l1/*", "channel/*", "delegate → channel push"),
    SuiteRule("*", "*/assistant.*", "l3/memory.retrieval", "assistant recall"),
    SuiteRule("*", "channel/*", "l3/memory.add", "channel post-turn add + webapp Memory page"),
    SuiteRule("service", "channel/*", "l3/memory.purge", "chatbot → memory user-purge (service only)"),
    SuiteRule("*", "channel/*", "l3/summarize.history", "channel summarizer"),
    SuiteRule("*", "l0/*", "l2/user.config", "orchestrator config changes"),
    SuiteRule("*", "channel/*", "l2/user.config", "channel /config + /cron commands"),
    SuiteRule("*", "*/computer.*", "infra/computer.*", "computer_use → sandbox"),
    SuiteRule("*", "*/database.*", "l3/database.*", "research → knowledge_base"),
    SuiteRule("*", "*/document.*", "*/document.*", "→ md_converter (file→md)"),
    SuiteRule("*", "*/web.fetch", "*/web.convert", "research webpage → md_converter")]

  /** A legal suite: every rule is named and allows. */
  predicate AllowOnly(suite: seq<Rule>) {
    forall i :: 0 <= i < |suite| ==> suite[i].effect == Allow && suite[i].name.Some?
  }

  /** _rule_payload, with the position it is given. */
  function Payload(r: Rule, ord: int): Rule {
    r.(id := None, ord := ord)
  }

  /** The merged list before ords are assigned. */
  function MergeOrder(existing: seq<Rule>, suite: seq<Rule>): seq<Rule> {
    SortByOrd(Custom(existing, suite)) + suite
  }

  function Numbered(rules: seq<Rule>): (r: seq<Rule>)
    ensures |r| == |rules|
    ensures forall i :: 0 <= i < |r| ==> r[i] == Payload(rules[i], i)
  {
    seq(|rules|, i requires 0 <= i < |rules| => Payload(rules[i], i))
  }

  /** merge_preserving_custom. */
  method MergePreservingCustom(existing: seq<Rule>, suite: seq<Rule>) returns (merged: seq<Rule>)
    ensures merged == Numbered(MergeOrder(existing, suite))
  {
    merged := MergeOrder(existing, suite);
    var order := merged;
    var i := 0;
    while i < |merged|
      invariant i <= |merged| == |order|
      invariant forall k :: 0 <= k < i ==> merged[k] == Payload(order[k], k)
      invariant forall k :: i <= k < |order| ==> merged[k] == order[k]
    {
      merged := merged[i := Payload(merged[i], i)];
      i := i + 1;
    }
  }

  /** What the router stores: the same rules under fresh server-assigned ids. */
  ghost predicate StoredAs(stored: seq<Rule>, merged: seq<Rule>) {
    |stored| == |merged| && forall i :: 0 <= i < |merged| ==> stored[i].(id := merged[i].id) == merged[i]
  }

  predicate SameMatch(a: Option<Rule>, b: Option<Rule>) {
    match (a, b)
    case (None, None) => true
    case (Some(x), Some(y)) => Payload(x, 0) == Payload(y, 0)
    case _ => false
  }

  /** Matching looks at neither ord nor id. */
  lemma {:induction false} SameMatches(a: seq<Rule>, b: seq<Rule>, caller: View, callee: View, level: Option<string>)
    requires |a| == |b| && forall i :: 0 <= i < |a| ==> Payload(a[i], 0) == Payload(b[i], 0)
    ensures SameMatch(FirstMatch(a, caller, callee, level), FirstMatch(b, caller, callee, level))
  {
    if a != [] {
      assert Payload(a[0], 0) == Payload(b[0], 0);
      forall i | 0 <= i < |a[1..]| ensures Payload(a[1..][i], 0) == Payload(b[1..][i], 0) {
        assert Payload(a[i + 1], 0) == Payload(b[i + 1], 0);
      }
      SameMatches(a[1..], b[1..], caller, callee, level);
    }
  }

  lemma {:induction false} FirstMatchAppend(a: seq<Rule>, b: seq<Rule>, caller: View, callee: View, level: Option<string>)
    ensures FirstMatch(a + b, caller, callee, level) ==
            if FirstMatch(a, caller, callee, level).Some? then FirstMatch(a, caller, callee, level)
            else FirstMatch(b, caller, callee, level)
  {
    if a == [] {
      assert a + b == b;
    } else {
      assert (a + b)[1..] == a[1..] + b;
      FirstMatchAppend(a[1..], b, caller, callee, level);
    }
  }

  lemma StoredIsSorted(existing: seq<Rule>, suite: seq<Rule>, stored: seq<Rule>)
    requires StoredAs(stored, Numbered(MergeOrder(existing, suite)))
    ensures SortByOrd(stored) == stored
  {
    forall i | 0 <= i < |stored| ensures stored[i].ord == i {
      assert stored[i].(id := None) == Numbered(MergeOrder(existing, suite))[i];
    }
    SortedIsFixed(stored);
  }

  /** The decision after a merge, for every existing rule list: the first matching custom
      rule in the order the evaluator used before, else the suite's first match, else the
      default denial; a self-call is always denied. */
  lemma MergeDecides(existing: seq<Rule>, suite: seq<Rule>, stored: seq<Rule>,
                     caller: View, callee: View, level: Option<string>)
    requires StoredAs(stored, Numbered(MergeOrder(existing, suite)))
    ensures var custom := FirstMatch(Custom(SortByOrd(existing), suite), caller, callee, level);
            var expected := if custom.Some? then custom else FirstMatch(suite, caller, callee, level);
            && SameMatch(FirstMatch(SortByOrd(stored), caller, callee, level), expected)
            && Decide(SortByOrd(stored), caller, callee, level).allow ==
                 (caller.id != callee.id && expected.Some? && expected.value.effect == Allow)
  {
    var order := MergeOrder(existing, suite);
    StoredIsSorted(existing, suite, stored);
    forall i | 0 <= i < |stored| ensures Payload(stored[i], 0) == Payload(order[i], 0) {
      assert stored[i].(id := None) == Numbered(order)[i] == Payload(order[i], i);
    }
    SameMatches(stored, order, caller, callee, level);
    CustomSort(existing, suite);
    FirstMatchAppend(SortByOrd(Custom(existing, suite)), suite, caller, callee, level);
  }

  lemma {:induction false} CustomAll(rules: seq<Rule>, suite: seq<Rule>)
    requires forall i :: 0 <= i < |rules| ==> !Owned(rules[i], suite)
    ensures Custom(rules, suite) == rules
  {
    if rules != [] {
      CustomAll(rules[1..], suite);
      assert rules == [rules[0]] + rules[1..];
    }
  }

  lemma {:induction false} CustomNone(rules: seq<Rule>, suite: seq<Rule>)
    requires forall i :: 0 <= i < |rules| ==> Owned(rules[i], suite)
    ensures Custom(rules, suite) == []
  {
    if rules != [] { CustomNone(rules[1..], suite); }
  }

  lemma StoredNames(existing: seq<Rule>, suite: seq<Rule>, stored: seq<Rule>, i: nat)
    requires StoredAs(stored, Numbered(MergeOrder(existing, suite))) && i < |stored|
    ensures stored[i].name == MergeOrder(existing, suite)[i].name && stored[i].ord == i
    ensures Payload(stored[i], 0) == Payload(MergeOrder(existing, suite)[i], 0)
  {
    var order := MergeOrder(existing, suite);
    assert stored[i].(id := None) == Numbered(order)[i] == Payload(order[i], i);
  }

  lemma SortedCustomFree(existing: seq<Rule>, suite: seq<Rule>, i: nat)
    requires i < |SortByOrd(Custom(existing, suite))|
    ensures !Owned(SortByOrd(Custom(existing, suite))[i], suite)
  {
    var custom := SortByOrd(Custom(existing, suite));
    SortSpec(Custom(existing, suite));
    CustomMember(existing, suite);
    assert custom[i] in multiset(custom);
    assert custom[i] in Custom(existing, suite);
  }

  lemma OwnedByName(r: Rule, s: Rule, suite: seq<Rule>)
    requires r.name == s.name
    ensures Owned(r, suite) == Owned(s, suite)
  {
  }

  /** In a stored merge the custom rules are exactly the part before the suite. */
  lemma StoredCustom(existing: seq<Rule>, suite: seq<Rule>, stored: seq<Rule>)
    requires AllowOnly(suite) && StoredAs(stored, Numbered(MergeOrder(existing, suite)))
    ensures |stored| == |SortByOrd(Custom(existing, suite))| + |suite|
    ensures Custom(stored, suite) == stored[..|stored| - |suite|]
  {
    var n := |stored| - |suite|;
    var front, back := stored[..n], stored[n..];
    forall i | 0 <= i < n ensures !Owned(front[i], suite) { StoredFront(existing, suite, stored, i); }
    forall i | 0 <= i < |back| ensures Owned(back[i], suite) { StoredBack(existing, suite, stored, i); }
    CustomParts(front, back, suite);
    assert stored == front + back;
  }

  lemma StoredFront(existing: seq<Rule>, suite: seq<Rule>, stored: seq<Rule>, i: nat)
    requires StoredAs(stored, Numbered(MergeOrder(existing, suite))) && i + |suite| < |stored|
    ensures !Owned(stored[i], suite)
  {
    StoredNames(existing, suite, stored, i);
    SortedCustomFree(existing, suite, i);
    OwnedByName(stored[i], MergeOrder(existing, suite)[i], suite);
  }

  lemma StoredBack(existing: seq<Rule>, suite: seq<Rule>, stored: seq<Rule>, i: nat)
    requires AllowOnly(suite) && StoredAs(stored, Numbered(MergeOrder(existing, suite))) && i < |suite|
    ensures |suite| <= |stored| && Owned(stored[|stored| - |suite| + i], suite)
  {
    var k := |stored| - |suite| + i;
    StoredNames(existing, suite, stored, k);
    assert MergeOrder(existing, suite)[k] == suite[i];
    OwnedByName(stored[k], suite[i], suite);
  }

  lemma CustomParts(front: seq<Rule>, back: seq<Rule>, suite: seq<Rule>)
    requires forall i :: 0 <= i < |front| ==> !Owned(front[i], suite)
    requires forall i :: 0 <= i < |back| ==> Owned(back[i], suite)
    ensures Custom(front + back, suite) == front
  {
    CustomAppend(front, back, suite);
    CustomAll(front, suite);
    CustomNone(back, suite);
  }

  /** Merging what a merge stored yields the same body again: a second boot changes
      nothing, ids and ords included. */
  lemma MergeIdempotent(existing: seq<Rule>, suite: seq<Rule>, stored: seq<Rule>)
    requires AllowOnly(suite) && StoredAs(stored, Numbered(MergeOrder(existing, suite)))
    ensures Numbered(MergeOrder(stored, suite)) == Numbered(MergeOrder(existing, suite))
  {
    var order := MergeOrder(existing, suite);
    var n := |stored| - |suite|;
    StoredCustom(existing, suite, stored);
    forall i | 0 <= i < |stored| ensures stored[i].ord == i && Payload(stored[i], 0) == Payload(order[i], 0) {
      StoredNames(existing, suite, stored, i);
    }
    SortedIsFixed(stored[..n]);
    var again := MergeOrder(stored, suite);
    assert again == stored[..n] + suite;
    forall i | 0 <= i < |again| ensures Numbered(again)[i] == Numbered(order)[i] {
      if i < n { assert Payload(again[i], 0) == Payload(order[i], 0); } else { assert again[i] == order[i]; }
    }
  }

  lemma {:induction false} MatchExists(rules: seq<Rule>, caller: View, callee: View, level: Option<string>)
    ensures FirstMatch(rules, caller, callee, level).Some? <==>
            exists r :: r in rules && RuleMatches(r, caller, callee, level)
    ensures FirstMatch(rules, caller, callee, level).Some? ==> FirstMatch(rules, caller, callee, level).value in rules
  {
    if rules != [] {
      assert rules == [rules[0]] + rules[1..];
      MatchExists(rules[1..], caller, callee, level);
      if RuleMatches(rules[0], caller, callee, level) { assert rules[0] in rules; }
    }
  }

  /** The suite is order-independent because it only allows: any permutation of it gives
      the same verdict behind the same custom rules. */
  lemma SuiteOrderIrrelevant(custom: seq<Rule>, suite: seq<Rule>, shuffled: seq<Rule>,
                             caller: View, callee: View, level: Option<string>)
    requires AllowOnly(suite) && multiset(suite) == multiset(shuffled)
    ensures Decide(custom + suite, caller, callee, level).allow == Decide(custom + shuffled, caller, callee, level).allow
  {
    FirstMatchAppend(custom, suite, caller, callee, level);
    FirstMatchAppend(custom, shuffled, caller, callee, level);
    MatchExists(suite, caller, callee, level);
    MatchExists(shuffled, caller, callee, level);
    forall r ensures r in suite <==> r in shuffled {
      assert r in multiset(suite) <==> r in multiset(shuffled);
    }
  }

  /** The shipped rules are an allow-list. */
  lemma SuiteAllows()
    ensures AllowOnly(SUITE) && |SUITE| == 17
  {
  }
}
