/**
 Rule firing as a property of the whole history of evaluations of a rule, and the
 proof that the evaluator's incremental state computes exactly that.
 */
module RuleHistory {
  import opened Prelude
  import opened RuleEvaluator

  /** Evaluations of one rule, oldest first. */
  type History = seq<Obs>

  predicate Fits(rule: Rule, h: History) {
    forall k | 0 <= k < |h| :: |h[k].truths| == |Conditions(rule)|
  }

  predicate ClockRuns(h: History) {
    forall j, k | 0 <= j < k < |h| :: h[j].now <= h[k].now
  }

  // -------------------------------------------------------- the specification

  /** Condition `i` was true at evaluations `j`, ..., up to the last. */
  predicate TrueSince(h: History, i: nat, j: nat) {
    j < |h| && forall k | j <= k < |h| :: i < |h[k].truths| && h[k].truths[i]
  }

  /** Some evaluation at least the debounce time ago started an unbroken true stretch. */
  predicate HeldLongEnough(h: History, i: nat, debounceMs: int) {
    exists j | 0 <= j < |h| :: TrueSince(h, i, j) && h[|h| - 1].now - h[j].now >= debounceMs
  }

  lemma StretchStart(h: History, i: nat, debounceMs: int) returns (j: nat)
    requires HeldLongEnough(h, i, debounceMs)
    ensures TrueSince(h, i, j) && h[|h| - 1].now - h[j].now >= debounceMs
  {
    j :| 0 <= j < |h| && TrueSince(h, i, j) && h[|h| - 1].now - h[j].now >= debounceMs;
  }

  predicate RuleTrue(rule: Rule, h: History) {
    var cs := Conditions(rule);
    h != [] &&
    if rule.when.all.Some? then forall i | 0 <= i < |cs| :: HeldLongEnough(h, i, Debounce(cs[i]))
    else exists i | 0 <= i < |cs| :: HeldLongEnough(h, i, Debounce(cs[i]))
  }

  /** Always for an ordinary rule; otherwise once the rule was seen false with all values present. */
  predicate Armed(rule: Rule, h: History) {
    rule.armAfterFalse != Some(true)
    || exists n | 0 < n <= |h| :: SeenFalse(rule, h, n)
  }

  /** The `n`-th evaluation (counting from 1) found the rule false, with all values present. */
  predicate SeenFalse(rule: Rule, h: History, n: int) {
    0 < n <= |h| && h[n - 1].present && !RuleTrue(rule, h[..n])
  }

  /** A rising edge of the debounced rule, armed and out of cooldown. */
  predicate Fires(rule: Rule, h: History)
    decreases |h|, 0
  {
    h != [] && RuleTrue(rule, h) && !RuleTrue(rule, h[..|h| - 1]) && Armed(rule, h[..|h| - 1])
    && !CoolingDown(rule, LastFiring(rule, h[..|h| - 1]), h[|h| - 1].now)
  }

  /** Where the true stretch of a condition that lets a rule fire begins. */
  lemma FiringStretch(rule: Rule, h: History, i: nat) returns (j: nat)
    requires Fires(rule, h) && rule.when.all.Some? && i < |Conditions(rule)|
    ensures TrueSince(h, i, j) && h[|h| - 1].now - h[j].now >= Debounce(Conditions(rule)[i])
  {
    assert RuleTrue(rule, h);
    j := StretchStart(h, i, Debounce(Conditions(rule)[i]));
  }

  /** For an `any` rule, the condition that lets it fire, too. */
  lemma AnyFiringStretch(rule: Rule, h: History) returns (i: nat, j: nat)
    requires Fires(rule, h) && rule.when.all.None?
    ensures i < |Conditions(rule)| && TrueSince(h, i, j) && h[|h| - 1].now - h[j].now >= Debounce(Conditions(rule)[i])
  {
    assert RuleTrue(rule, h);
    i :| 0 <= i < |Conditions(rule)| && HeldLongEnough(h, i, Debounce(Conditions(rule)[i]));
    j := StretchStart(h, i, Debounce(Conditions(rule)[i]));
  }

  function LastFiring(rule: Rule, h: History): Option<int>
    decreases |h|, 1
  {
    if h == [] then None
    else if Fires(rule, h) then Some(h[|h| - 1].now) else LastFiring(rule, h[..|h| - 1])
  }

  /** Start of the longest stretch of evaluations, up to the last, with condition `i` true. */
  function SuffixStart(h: History, i: nat): (j: nat)
    ensures j <= |h|
    ensures forall k | j <= k < |h| :: i < |h[k].truths| && h[k].truths[i]
    ensures j == 0 || i >= |h[j - 1].truths| || !h[j - 1].truths[i]
  {
    if h == [] || i >= |h[|h| - 1].truths| || !h[|h| - 1].truths[i] then |h|
    else SuffixStart(h[..|h| - 1], i)
  }

  // ---------------------------------------------------------------- refinement

  /** The evaluator's state after a history. */
  function StateAfter(rule: Rule, h: History): RuleState
    requires Fits(rule, h)
  {
    if h == [] then NewState(rule) else RuleStep(rule, StateAfter(rule, h[..|h| - 1]), h[|h| - 1]).0
  }

  predicate Returned(rule: Rule, h: History)
    requires Fits(rule, h) && h != []
  {
    RuleStep(rule, StateAfter(rule, h[..|h| - 1]), h[|h| - 1]).1
  }

  ghost predicate HeldAgreesAt(h: History, held: map<nat, int>, i: nat) {
    if i in held then SuffixStart(h, i) < |h| && held[i] == h[SuffixStart(h, i)].now
    else SuffixStart(h, i) == |h|
  }

  ghost predicate HeldAgrees(rule: Rule, h: History, held: map<nat, int>) {
    forall i :: HeldAgreesAt(h, held, i)
  }

  lemma {:induction false} HeldStepAt(rule: Rule, h: History, held: map<nat, int>, i: nat)
    requires Fits(rule, h) && h != [] && HeldAgreesAt(h[..|h| - 1], held, i)
    ensures HeldAgreesAt(h, HeldAfter(held, h[|h| - 1]), i)
  {
    if i >= |h[|h| - 1].truths| { NeverBeyond(rule, h[..|h| - 1], i); }
  }

  lemma {:induction false} HeldStep(rule: Rule, h: History, held: map<nat, int>)
    requires Fits(rule, h) && h != [] && HeldAgrees(rule, h[..|h| - 1], held)
    ensures HeldAgrees(rule, h, HeldAfter(held, h[|h| - 1]))
  {
    var after := HeldAfter(held, h[|h| - 1]);
    forall i: nat ensures HeldAgreesAt(h, after, i) {
      assert HeldAgreesAt(h[..|h| - 1], held, i);
      HeldStepAt(rule, h, held, i);
    }
  }

  lemma NeverBeyond(rule: Rule, h: History, i: nat)
    requires Fits(rule, h) && i >= |Conditions(rule)|
    ensures SuffixStart(h, i) == |h|
  {
  }

  lemma DebouncedIffHeld(rule: Rule, h: History, held: map<nat, int>, i: nat)
    requires Fits(rule, h) && h != [] && ClockRuns(h) && HeldAgrees(rule, h, held) && i < |Conditions(rule)|
    ensures var o := h[|h| - 1];
            (o.truths[i] ==> i in held)
            && (o.truths[i] && o.now - held[i] >= Debounce(Conditions(rule)[i])
                <==> HeldLongEnough(h, i, Debounce(Conditions(rule)[i])))
  {
    var start := SuffixStart(h, i);
    assert HeldAgreesAt(h, held, i);
    if i in held {
      assert TrueSince(h, i, start);
    }
    if HeldLongEnough(h, i, Debounce(Conditions(rule)[i])) {
      var j :| 0 <= j < |h| && TrueSince(h, i, j) && h[|h| - 1].now - h[j].now >= Debounce(Conditions(rule)[i]);
      if start > 0 { assert start - 1 < j; }
    }
  }

  lemma CombinedMatches(rule: Rule, h: History, bs: seq<bool>)
    requires h != [] && |bs| == |Conditions(rule)|
    requires forall i | 0 <= i < |bs| :: bs[i] <==> HeldLongEnough(h, i, Debounce(Conditions(rule)[i]))
    ensures Combined(rule, bs) <==> RuleTrue(rule, h)
  {
  }

  lemma CombinedIffRuleTrue(rule: Rule, h: History, held: map<nat, int>)
    requires Fits(rule, h) && h != [] && ClockRuns(h) && HeldAgrees(rule, h, held)
    ensures forall i | 0 <= i < |Conditions(rule)| && h[|h| - 1].truths[i] :: i in held
    ensures Combined(rule, Debounced(Conditions(rule), held, h[|h| - 1])) <==> RuleTrue(rule, h)
  {
    var cs, o := Conditions(rule), h[|h| - 1];
    forall i | 0 <= i < |cs|
      ensures o.truths[i] ==> i in held
      ensures o.truths[i] && o.now - held[i] >= Debounce(cs[i]) <==> HeldLongEnough(h, i, Debounce(cs[i]))
    {
      DebouncedIffHeld(rule, h, held, i);
    }
    CombinedMatches(rule, h, Debounced(cs, held, o));
  }

  lemma SeenFalseEarlier(rule: Rule, h: History, n: int)
    requires 0 < n < |h|
    ensures SeenFalse(rule, h, n) <==> SeenFalse(rule, h[..|h| - 1], n)
  {
    assert h[..|h| - 1][..n] == h[..n];
  }

  lemma ArmedStep(rule: Rule, h: History)
    requires h != []
    ensures Armed(rule, h) <==> Armed(rule, h[..|h| - 1]) || (h[|h| - 1].present && !RuleTrue(rule, h))
  {
    var front := h[..|h| - 1];
    assert h[..|h|] == h;
    assert SeenFalse(rule, h, |h|) <==> h[|h| - 1].present && !RuleTrue(rule, h);
    forall n | 0 < n <= |front| ensures SeenFalse(rule, h, n) <==> SeenFalse(rule, front, n) {
      SeenFalseEarlier(rule, h, n);
    }
  }

  /**
   Main result: whatever the history, the evaluator's state is the summary the
   specification calls for, and the rule is returned exactly when the specification
   says it fires.
   */
  lemma {:induction false} EvaluatorRefinesHistory(rule: Rule, h: History)
    requires Fits(rule, h) && ClockRuns(h)
    ensures var s := StateAfter(rule, h);
            && s.fired == RuleTrue(rule, h)
            && s.armed == Armed(rule, h)
            && s.lastFiredAt == LastFiring(rule, h)
            && HeldAgrees(rule, h, s.heldSince)
    ensures h != [] ==> (Returned(rule, h) <==> Fires(rule, h))
  {
    if h != [] {
      var front, o := h[..|h| - 1], h[|h| - 1];
      EvaluatorRefinesHistory(rule, front);
      var s := StateAfter(rule, front);
      HeldStep(rule, h, s.heldSince);
      CombinedIffRuleTrue(rule, h, HeldAfter(s.heldSince, o));
      ArmedStep(rule, h);
    }
  }

  // -------------------------------------------------------- firing over a run

  /** The rule fired at evaluation `n` (counting from 1). */
  predicate FiredAt(rule: Rule, h: History, n: nat) { 0 < n <= |h| && Fires(rule, h[..n]) }

  lemma {:induction false} LastFiringCovers(rule: Rule, h: History, m: nat)
    requires ClockRuns(h) && FiredAt(rule, h, m)
    ensures LastFiring(rule, h).Some? && LastFiring(rule, h).value >= h[m - 1].now
  {
    if m < |h| {
      var front := h[..|h| - 1];
      assert front[..m] == h[..m] && front[m - 1] == h[m - 1];
      LastFiringCovers(rule, front, m);
    } else {
      assert h[..m] == h;
    }
  }

  lemma FiringIsAnEdge(rule: Rule, h: History, n: nat)
    requires FiredAt(rule, h, n)
    ensures RuleTrue(rule, h[..n]) && !RuleTrue(rule, h[..n - 1])
    ensures !CoolingDown(rule, LastFiring(rule, h[..n - 1]), h[n - 1].now)
  {
    TakeTake(h, n - 1, n);
  }

  lemma FrontOfRun(rule: Rule, h: History, m: nat, n: nat)
    requires ClockRuns(h) && FiredAt(rule, h, m) && m <= n <= |h|
    ensures ClockRuns(h[..n]) && FiredAt(rule, h[..n], m) && h[..n][m - 1] == h[m - 1]
  {
    TakeTake(h, m, n);
  }

  lemma OutOfCooldown(rule: Rule, last: Option<int>, earlier: int, now: int)
    requires last.Some? && last.value >= earlier && !CoolingDown(rule, last, now)
    ensures now - earlier >= rule.cooldownMs.GetOr(0)
  {
  }

  lemma FalseBetween(rule: Rule, h: History, m: nat, n: nat)
    requires FiredAt(rule, h, m) && FiredAt(rule, h, n) && m < n
    ensures m < n - 1 && !RuleTrue(rule, h[..n - 1])
  {
    FiringIsAnEdge(rule, h, m);
    FiringIsAnEdge(rule, h, n);
  }

  lemma CooledDown(rule: Rule, h: History, n: nat)
    requires FiredAt(rule, h, n)
    ensures !CoolingDown(rule, LastFiring(rule, h[..n - 1]), h[n - 1].now)
  {
    FiringIsAnEdge(rule, h, n);
  }

  /** Two firings are at least the cooldown apart, with the rule false in between. */
  lemma FiringsAreApart(rule: Rule, h: History, m: nat, n: nat)
    requires ClockRuns(h) && FiredAt(rule, h, m) && FiredAt(rule, h, n) && m < n
    ensures h[n - 1].now - h[m - 1].now >= rule.cooldownMs.GetOr(0)
    ensures m < n - 1 && !RuleTrue(rule, h[..n - 1])
  {
    hide Fires, RuleTrue, LastFiring, CoolingDown, ClockRuns;
    FalseBetween(rule, h, m, n);
    CooledDown(rule, h, n);
    FrontOfRun(rule, h, m, n - 1);
    LastFiringCovers(rule, h[..n - 1], m);
    OutOfCooldown(rule, LastFiring(rule, h[..n - 1]), h[m - 1].now, h[n - 1].now);
  }

  /** Evaluating again with the same values at the same time returns nothing. */
  lemma {:induction false} RepeatedTickIsSilent(rule: Rule, h: History)
    requires h != [] && ClockRuns(h) && Fits(rule, h)
    ensures !Fires(rule, h + [h[|h| - 1]])
  {
    var o := h[|h| - 1];
    var again := h + [o];
    assert again[..|again| - 1] == h;
    forall i, d ensures HeldLongEnough(again, i, d) ==> HeldLongEnough(h, i, d) {
      if HeldLongEnough(again, i, d) {
        var j :| 0 <= j < |again| && TrueSince(again, i, j) && o.now - again[j].now >= d;
        var j' := if j == |h| then j - 1 else j;
        assert again[j'].now == again[j].now || j' == j;
        assert forall k | j' <= k < |h| :: again[k] == h[k];
        assert again[|h|] == o == h[|h| - 1];
        assert TrueSince(h, i, j') && h[|h| - 1].now - h[j'].now >= d;
      }
    }
  }

  /** An edge that was swallowed, by cooldown or by arming, never fires late: the rule must go false first. */
  lemma {:induction false} SwallowedEdgeStaysSilent(rule: Rule, h: History, m: nat, n: nat)
    requires 0 < m < n <= |h| && forall k | m <= k <= n :: RuleTrue(rule, h[..k])
    ensures forall k | m < k <= n :: !Fires(rule, h[..k])
  {
    forall k | m < k <= n ensures !Fires(rule, h[..k]) {
      assert RuleTrue(rule, h[..k - 1]);
      if FiredAt(rule, h, k) { FiringIsAnEdge(rule, h, k); }
    }
  }

  /** The `n`-th evaluation fired, less than the cooldown ago. */
  predicate FiredLately(rule: Rule, h: History, now: int, n: int) {
    0 < n <= |h| && Fires(rule, h[..n]) && now - h[n - 1].now < rule.cooldownMs.GetOr(0)
  }

  ghost predicate FiredWithin(rule: Rule, h: History, now: int) { exists n :: FiredLately(rule, h, now, n) }

  lemma RecentInFront(rule: Rule, h: History, now: int, n: int)
    requires h != [] && n < |h|
    ensures FiredLately(rule, h, now, n) <==> FiredLately(rule, h[..|h| - 1], now, n)
  {
    hide Fires;
    if 0 < n {
      TakeTake(h, n, |h| - 1);
      assert h[..|h| - 1][n - 1] == h[n - 1];
    }
  }

  lemma {:induction false} CoolingIffFiredWithin(rule: Rule, h: History, now: int)
    requires ClockRuns(h)
    ensures CoolingDown(rule, LastFiring(rule, h), now) <==> FiredWithin(rule, h, now)
  {
    if h != [] {
      hide Fires, FiredLately;
      var front := h[..|h| - 1];
      CoolingIffFiredWithin(rule, front, now);
      LastFired(rule, h, now);
      forall n | n < |h| ensures FiredLately(rule, h, now, n) <==> FiredLately(rule, front, now, n) {
        RecentInFront(rule, h, now, n);
      }
      if FiredWithin(rule, h, now) {
        var n :| FiredLately(rule, h, now, n);
        EarlierFiredLonger(rule, h, now, n);
      }
    }
  }

  lemma LastFired(rule: Rule, h: History, now: int)
    requires h != []
    ensures FiredLately(rule, h, now, |h|) <==> Fires(rule, h) && now - h[|h| - 1].now < rule.cooldownMs.GetOr(0)
  {
    assert h[..|h|] == h;
  }

  lemma EarlierFiredLonger(rule: Rule, h: History, now: int, n: int)
    requires ClockRuns(h) && FiredLately(rule, h, now, n)
    ensures n <= |h| && now - h[|h| - 1].now < rule.cooldownMs.GetOr(0)
  {
  }

  /** Exactly when a rule fires: on an armed rising edge with no firing less than the cooldown ago. */
  lemma FiresIff(rule: Rule, h: History)
    requires ClockRuns(h) && h != []
    ensures Fires(rule, h) <==>
      && RuleTrue(rule, h) && !RuleTrue(rule, h[..|h| - 1]) && Armed(rule, h[..|h| - 1])
      && !FiredWithin(rule, h[..|h| - 1], h[|h| - 1].now)
  {
    CoolingIffFiredWithin(rule, h[..|h| - 1], h[|h| - 1].now);
  }

  /** No condition of the rule waits. */
  predicate NoDebounce(rule: Rule) {
    forall i | 0 <= i < |Conditions(rule)| :: Debounce(Conditions(rule)[i]) <= 0
  }

  lemma NoWaitIsTruth(h: History, i: nat, d: int)
    requires h != [] && i < |h[|h| - 1].truths| && d <= 0
    ensures HeldLongEnough(h, i, d) <==> h[|h| - 1].truths[i]
  {
    if h[|h| - 1].truths[i] { assert TrueSince(h, i, |h| - 1); }
    if HeldLongEnough(h, i, d) { var j := StretchStart(h, i, d); }
  }

  lemma NoDebounceIsDirect(rule: Rule, h: History)
    requires NoDebounce(rule) && Fits(rule, h) && h != []
    ensures RuleTrue(rule, h) <==> Combined(rule, h[|h| - 1].truths)
  {
    var o := h[|h| - 1];
    forall i | 0 <= i < |o.truths| ensures o.truths[i] <==> HeldLongEnough(h, i, Debounce(Conditions(rule)[i])) {
      NoWaitIsTruth(h, i, Debounce(Conditions(rule)[i]));
    }
    CombinedMatches(rule, h, o.truths);
  }

  lemma SeenFalseIsReal(rule: Rule, h: History, n: nat)
    requires NoDebounce(rule) && Fits(rule, h) && SeenFalse(rule, h, n)
    ensures h[n - 1].present && !Combined(rule, h[n - 1].truths)
  {
    var upTo := h[..n];
    assert upTo[|upTo| - 1] == h[n - 1];
    NoDebounceIsDirect(rule, upTo);
  }

  /** An evaluation before the last was really false: every value was there, and the rule did not hold of them. */
  predicate RealFalseBefore(rule: Rule, h: History) {
    exists n | 0 <= n < |h| - 1 :: h[n].present && !Combined(rule, h[n].truths)
  }

  /** Without debounce, a rule that arms after a false fires only after a real one. */
  lemma {:induction false} ArmingNeedsRealFalse(rule: Rule, h: History)
    requires rule.armAfterFalse == Some(true) && NoDebounce(rule) && Fits(rule, h) && Fires(rule, h)
    ensures RealFalseBefore(rule, h)
  {
    var front := h[..|h| - 1];
    assert Armed(rule, front);
    var m :| 0 < m <= |front| && SeenFalse(rule, front, m);
    SeenFalseIsReal(rule, front, m);
    assert h[m - 1].present && !Combined(rule, h[m - 1].truths);
  }

  /** The condition that waits longest. */
  lemma {:induction false} LongestWait(cs: seq<Condition>) returns (i: nat)
    requires cs != []
    ensures i < |cs| && forall j | 0 <= j < |cs| :: Debounce(cs[j]) <= Debounce(cs[i])
  {
    i := |cs| - 1;
    if |cs| > 1 {
      var k := LongestWait(cs[..|cs| - 1]);
      if Debounce(cs[i]) < Debounce(cs[k]) { i := k; }
    }
  }

  /** What an evaluation sees while condition `i` waits: an `all` rule all true, an `any` rule only that one. */
  function Pending(rule: Rule, i: nat): (truths: seq<bool>)
    ensures |truths| == |Conditions(rule)|
  {
    seq(|Conditions(rule)|, k => rule.when.all.Some? || k == i)
  }

  lemma PendingIsNotYetTrue(rule: Rule, i: nat, a: Obs)
    requires i < |Conditions(rule)| && Debounce(Conditions(rule)[i]) > 0 && a.truths == Pending(rule, i)
    ensures !RuleTrue(rule, [a])
  {
    forall k, d | d > 0 ensures !HeldLongEnough([a], k, d) {}
    forall k: nat, d | k < |a.truths| && !a.truths[k] ensures !HeldLongEnough([a], k, d) {
      if HeldLongEnough([a], k, d) { var j := StretchStart([a], k, d); }
    }
    assert !HeldLongEnough([a], i, Debounce(Conditions(rule)[i]));
  }

  lemma PendingComesTrue(rule: Rule, i: nat, a: Obs, b: Obs)
    requires i < |Conditions(rule)| && a.truths == b.truths == Pending(rule, i)
    requires forall k | 0 <= k < |Conditions(rule)| :: Debounce(Conditions(rule)[k]) <= b.now - a.now
    ensures RuleTrue(rule, [a, b])
  {
    var h := [a, b];
    forall k | 0 <= k < |Conditions(rule)| && a.truths[k] ensures HeldLongEnough(h, k, Debounce(Conditions(rule)[k])) {
      assert TrueSince(h, k, 0) && h[|h| - 1].now - h[0].now >= Debounce(Conditions(rule)[k]);
    }
    assert HeldLongEnough(h, i, Debounce(Conditions(rule)[i]));
  }

  /**
   With a debounce anywhere that is not so: a pending debounce counts as false, so the
   rule fires at its second evaluation although its conditions held from the first.
   */
  lemma {:induction false} PendingDebounceArms(rule: Rule) returns (h: History)
    requires rule.armAfterFalse == Some(true) && !NoDebounce(rule)
    ensures Fits(rule, h) && ClockRuns(h) && Fires(rule, h) && !RealFalseBefore(rule, h)
  {
    var cs := Conditions(rule);
    var i := LongestWait(cs);
    var a, b := Obs(0, Pending(rule, i), true), Obs(Debounce(cs[i]), Pending(rule, i), true);
    h := [a, b];
    assert h[..1] == [a] && [a][..0] == [] && [a][..1] == [a];
    PendingIsNotYetTrue(rule, i, a);
    PendingComesTrue(rule, i, a, b);
    assert SeenFalse(rule, [a], 1);
    assert LastFiring(rule, [a]) == None;
    assert a.truths[i];
  }

  /**
   Exactly which rules keep the promise of `armAfterFalse`, firing only after a really
   false evaluation: those none of whose conditions waits.
   */
  lemma {:induction false} ArmsOnRealFalseIffNoDebounce(rule: Rule)
    requires rule.armAfterFalse == Some(true)
    ensures (forall h: History | Fits(rule, h) && ClockRuns(h) && Fires(rule, h) :: RealFalseBefore(rule, h))
       <==> NoDebounce(rule)
  {
    if NoDebounce(rule) {
      forall h: History | Fits(rule, h) && ClockRuns(h) && Fires(rule, h) ensures RealFalseBefore(rule, h) {
        ArmingNeedsRealFalse(rule, h);
      }
    } else {
      var h := PendingDebounceArms(rule);
    }
  }
}
