/**
 The offline verifier of a log file, and what its verdict means: with hashes that
 cannot be forged, a file is valid exactly when it is a concatenation of
 non-empty prefixes of what logger processes emitted.
 */
module VerifyChain {
  import opened Prelude
  import opened Pipeline

  datatype Reason = MissingEvent | SignatureMismatch | OutOfOrder
  datatype Violation = Violation(seqNo: int, reason: Reason)
  datatype Verification = Verification(valid: bool, events: nat, segments: nat, violations: seq<Violation>)

  /** How one event attaches to the one before it. */
  datatype Link = Continues | Starts | Broken(reason: Reason)

  function LinkAt(file: seq<LogEvent>, i: nat): Link
    requires i < |file|
  {
    var e := file[i];
    if i > 0 && e.prevHash == file[i - 1].signature then
      if e.seqNo == file[i - 1].seqNo + 1 then Continues
      else Broken(if e.seqNo <= file[i - 1].seqNo then OutOfOrder else MissingEvent)
    else if e.prevHash == Genesis then Starts
    else Broken(MissingEvent)
  }

  function ViolationsAt(file: seq<LogEvent>, key: string, i: nat): seq<Violation>
    requires i < |file|
  {
    (match LinkAt(file, i) case Broken(reason) => [Violation(file[i].seqNo, reason)] case _ => [])
    + (if VerifySignature(file[i], key) then [] else [Violation(file[i].seqNo, SignatureMismatch)])
  }

  /** Violations reported for the first `n` events. */
  function Violations(file: seq<LogEvent>, key: string, n: nat): seq<Violation>
    requires n <= |file|
  {
    if n == 0 then [] else Violations(file, key, n - 1) + ViolationsAt(file, key, n - 1)
  }

  /** Segments counted in the first `n` events. */
  function Segments(file: seq<LogEvent>, n: nat): nat
    requires n <= |file|
  {
    if n == 0 then 0 else Segments(file, n - 1) + (if LinkAt(file, n - 1).Starts? then 1 else 0)
  }

  function Verdict(file: seq<LogEvent>, key: string): Verification {
    var violations := Violations(file, key, |file|);
    Verification(violations == [], |file|, Segments(file, |file|), violations)
  }

  method VerifyChain(events: seq<LogEvent>, key: string) returns (v: Verification)
    ensures v == Verdict(events, key)
  {
    if |events| == 0 {
      return Verification(true, 0, 0, []);
    }
    var violations: seq<Violation> := [];
    var segments: nat := 0;
    for i := 0 to |events|
      invariant violations == Violations(events, key, i) && segments == Segments(events, i)
    {
      var event := events[i];
      ghost var before := violations;
      if i == 0 {
        if event.prevHash != Genesis {
          violations := violations + [Violation(event.seqNo, MissingEvent)];
        } else {
          segments := segments + 1;
        }
      } else if event.prevHash == events[i - 1].signature {
        if event.seqNo == events[i - 1].seqNo + 1 {
        } else if event.seqNo <= events[i - 1].seqNo {
          violations := violations + [Violation(event.seqNo, OutOfOrder)];
        } else {
          violations := violations + [Violation(event.seqNo, MissingEvent)];
        }
      } else if event.prevHash == Genesis {
        segments := segments + 1;
      } else {
        violations := violations + [Violation(event.seqNo, MissingEvent)];
      }
      if !VerifySignature(event, key) {
        violations := violations + [Violation(event.seqNo, SignatureMismatch)];
      }
      assert violations == before + ViolationsAt(events, key, i);
    }
    v := Verification(|violations| == 0, |events|, segments, violations);
  }

  // ----------------------------------------------------------- emitted chains

  /** What one logger process emits: numbered from 1, each event naming its predecessor's signature. */
  ghost predicate IsRun(r: seq<LogEvent>, key: string) {
    forall i | 0 <= i < |r| :: ChainedAt(r, key, i)
  }

  ghost predicate ChainedAt(r: seq<LogEvent>, key: string, i: nat)
    requires i < |r|
  {
    && r[i].seqNo == i + 1
    && r[i].prevHash == (if i == 0 then Genesis else r[i - 1].signature)
    && VerifySignature(r[i], key)
  }

  ghost predicate AllRuns(runs: seq<seq<LogEvent>>, key: string) {
    forall r | r in runs :: IsRun(r, key)
  }

  /** Some process produced this event's signature. */
  ghost predicate Emitted(e: LogEvent, runs: seq<seq<LogEvent>>) {
    exists r: seq<LogEvent>, j :: r in runs && 0 <= j < |r| && r[j].signature == e.signature
  }

  /** Unforgeability: whatever verifies carries a signature that some process produced. */
  ghost predicate Authentic(file: seq<LogEvent>, runs: seq<seq<LogEvent>>, key: string) {
    forall i | 0 <= i < |file| && VerifySignature(file[i], key) :: Emitted(file[i], runs)
  }

  /** The same signed event, up to what the canonical text does not distinguish. */
  ghost predicate SameSigned(e: LogEvent, f: LogEvent) {
    && e.signature == f.signature && e.prevHash == f.prevHash
    && e.seqNo == f.seqNo && Canonical(e) == Canonical(f)
  }

  /** `piece` is a non-empty prefix of the run `r`. */
  ghost predicate PrefixOf(piece: seq<LogEvent>, r: seq<LogEvent>) {
    0 < |piece| <= |r| && forall i | 0 <= i < |piece| :: SameSigned(piece[i], r[i])
  }

  ghost predicate Prefixes(pieces: seq<seq<LogEvent>>, runs: seq<seq<LogEvent>>) {
    forall p | p in pieces :: exists r :: r in runs && PrefixOf(p, r)
  }

  ghost function Concat(pieces: seq<seq<LogEvent>>): seq<LogEvent> {
    if pieces == [] then [] else Concat(pieces[..|pieces| - 1]) + pieces[|pieces| - 1]
  }

  lemma ConcatNext(pieces: seq<seq<LogEvent>>, p: seq<LogEvent>)
    ensures Concat(pieces + [p]) == Concat(pieces) + p
  {
    DropLast(pieces, p);
  }

  lemma PrefixesNext(pieces: seq<seq<LogEvent>>, p: seq<LogEvent>, r: seq<LogEvent>, runs: seq<seq<LogEvent>>)
    requires Prefixes(pieces, runs) && r in runs && PrefixOf(p, r)
    ensures Prefixes(pieces + [p], runs)
  {
  }

  lemma PrefixesFront(pieces: seq<seq<LogEvent>>, n: nat, runs: seq<seq<LogEvent>>)
    requires Prefixes(pieces, runs) && n <= |pieces|
    ensures Prefixes(pieces[..n], runs)
  {
    forall p | p in pieces[..n] ensures exists r :: r in runs && PrefixOf(p, r) { assert p in pieces; }
  }

  lemma SameSignature(e: LogEvent, f: LogEvent, key: string)
    requires VerifySignature(e, key) && VerifySignature(f, key) && e.signature == f.signature
    ensures SameSigned(e, f) && e.signature != Genesis
  {
  }

  ghost predicate SameUpTo(r: seq<LogEvent>, s: seq<LogEvent>, n: nat) {
    n <= |r| && n <= |s| && forall i | 0 <= i < n :: SameSigned(r[i], s[i])
  }

  /** A signature fixes the whole history behind it. */
  lemma {:induction false} SignatureFixesHistory(r: seq<LogEvent>, j: nat, s: seq<LogEvent>, k: nat, key: string)
    requires IsRun(r, key) && IsRun(s, key) && j < |r| && k < |s|
    requires r[j].signature == s[k].signature
    ensures j == k && SameUpTo(r, s, j + 1)
    decreases j
  {
    assert ChainedAt(r, key, j) && ChainedAt(s, key, k);
    SameSignature(r[j], s[k], key);
    if j > 0 {
      SignatureFixesHistory(r, j - 1, s, k - 1, key);
    }
  }

  /** A verifying event is some emitted one, at the place its sequence number says. */
  lemma EmittedEvent(e: LogEvent, runs: seq<seq<LogEvent>>, key: string)
    returns (r: seq<LogEvent>, j: nat)
    requires AllRuns(runs, key) && VerifySignature(e, key) && Emitted(e, runs)
    ensures r in runs && IsRun(r, key) && j < |r| && SameSigned(e, r[j])
    ensures e.seqNo == j + 1 && (e.prevHash == Genesis <==> j == 0)
    ensures j > 0 ==> e.prevHash == r[j - 1].signature
    ensures e.signature != Genesis
  {
    r, j :| r in runs && 0 <= j < |r| && r[j].signature == e.signature;
    assert ChainedAt(r, key, j);
    if j > 0 { assert ChainedAt(r, key, j - 1); }
  }

  // ------------------------------------------------------- meaning of validity

  ghost predicate GoodAt(file: seq<LogEvent>, key: string, i: nat)
    requires i < |file|
  {
    VerifySignature(file[i], key) && !LinkAt(file, i).Broken?
  }

  /** Events `from` to `to` all attach and verify. */
  ghost predicate AllGood(file: seq<LogEvent>, key: string, from: nat, to: nat)
    requires to <= |file|
  {
    forall i | from <= i < to :: GoodAt(file, key, i)
  }

  lemma GoodIsSigned(file: seq<LogEvent>, key: string, i: nat, to: nat)
    requires i < to <= |file| && AllGood(file, key, 0, i + 1)
    ensures file[i].signature != Genesis
  {
    assert GoodAt(file, key, i);
  }

  lemma AllGoodNext(file: seq<LogEvent>, key: string, from: nat, to: nat)
    requires from < to <= |file| && GoodAt(file, key, to - 1) && (from < to - 1 ==> AllGood(file, key, from, to - 1))
    ensures AllGood(file, key, from, to)
  {
    forall i | from <= i < to ensures GoodAt(file, key, i) {
      if i < to - 1 { assert AllGood(file, key, from, to - 1); }
    }
  }

  lemma AllGoodJoins(file: seq<LogEvent>, key: string, mid: nat, to: nat)
    requires mid <= to <= |file| && AllGood(file, key, 0, mid) && AllGood(file, key, mid, to)
    ensures AllGood(file, key, 0, to)
  {
  }

  lemma NoViolationAt(file: seq<LogEvent>, key: string, i: nat)
    requires i < |file|
    ensures ViolationsAt(file, key, i) == [] <==> GoodAt(file, key, i)
  {
    EmptyJoin(match LinkAt(file, i) case Broken(reason) => [Violation(file[i].seqNo, reason)] case _ => [],
              if VerifySignature(file[i], key) then [] else [Violation(file[i].seqNo, SignatureMismatch)]);
  }

  lemma ViolationsSplit(file: seq<LogEvent>, key: string, n: nat)
    requires 0 < n <= |file|
    ensures Violations(file, key, n) == [] <==> Violations(file, key, n - 1) == [] && GoodAt(file, key, n - 1)
  {
    NoViolationAt(file, key, n - 1);
    EmptyJoin(Violations(file, key, n - 1), ViolationsAt(file, key, n - 1));
  }

  lemma AllGoodSplit(file: seq<LogEvent>, key: string, n: nat)
    requires 0 < n <= |file|
    ensures AllGood(file, key, 0, n) <==> AllGood(file, key, 0, n - 1) && GoodAt(file, key, n - 1)
  {
    if AllGood(file, key, 0, n) { assert GoodAt(file, key, n - 1); }
  }

  lemma {:induction false} NoViolationsIffGood(file: seq<LogEvent>, key: string, n: nat)
    requires n <= |file|
    ensures Violations(file, key, n) == [] <==> AllGood(file, key, 0, n)
  {
    if n > 0 {
      NoViolationsIffGood(file, key, n - 1);
      ViolationsSplit(file, key, n);
      AllGoodSplit(file, key, n);
    }
  }

  lemma {:induction false} SplitIntoPrefixes(file: seq<LogEvent>, runs: seq<seq<LogEvent>>, key: string, n: nat)
    returns (pieces: seq<seq<LogEvent>>)
    requires n <= |file| && AllRuns(runs, key) && Authentic(file, runs, key)
    requires AllGood(file, key, 0, n)
    ensures Prefixes(pieces, runs) && Concat(pieces) == file[..n] && |pieces| == Segments(file, n)
    decreases n
  {
    pieces := [];
    if n > 0 {
      var before := SplitIntoPrefixes(file, runs, key, n - 1);
      var e := file[n - 1];
      assert GoodAt(file, key, n - 1);
      var r, j := EmittedEvent(e, runs, key);
      if LinkAt(file, n - 1).Starts? {
        pieces := StartPiece(before, file, runs, n, r);
      } else {
        pieces := ExtendLast(before, file, runs, key, n, r, j);
      }
    }
  }

  /** An event that starts a chain is a prefix of its own. */
  lemma StartPiece(before: seq<seq<LogEvent>>, file: seq<LogEvent>, runs: seq<seq<LogEvent>>, n: nat, r: seq<LogEvent>)
    returns (pieces: seq<seq<LogEvent>>)
    requires 0 < n <= |file| && Prefixes(before, runs) && Concat(before) == file[..n - 1]
    requires r in runs && r != [] && SameSigned(file[n - 1], r[0])
    ensures Prefixes(pieces, runs) && Concat(pieces) == file[..n] && |pieces| == |before| + 1
  {
    pieces := before + [[file[n - 1]]];
    TakeNext(file, n);
    FirstIsPrefix(file[n - 1], r);
    PrefixesNext(before, [file[n - 1]], r, runs);
    ConcatNext(before, [file[n - 1]]);
  }

  lemma FirstIsPrefix(e: LogEvent, r: seq<LogEvent>)
    requires r != [] && SameSigned(e, r[0])
    ensures PrefixOf([e], r)
  {
  }

  /** An event that continues the chain extends the last prefix. */
  lemma ExtendLast(before: seq<seq<LogEvent>>, file: seq<LogEvent>, runs: seq<seq<LogEvent>>, key: string, n: nat,
                   r: seq<LogEvent>, j: nat)
    returns (pieces: seq<seq<LogEvent>>)
    requires 1 < n <= |file| && AllRuns(runs, key) && LinkAt(file, n - 1).Continues?
    requires Prefixes(before, runs) && before != [] && Concat(before) == file[..n - 1]
    requires r in runs && j < |r| && SameSigned(file[n - 1], r[j])
    ensures Prefixes(pieces, runs) && Concat(pieces) == file[..n] && |pieces| == |before|
  {
    var e := file[n - 1];
    var rest, last := before[..|before| - 1], before[|before| - 1];
    assert last in before;
    FrontFits(Concat(rest), last, file, n - 1);
    assert file[n - 2] == file[n - 1 - |last| + (|last| - 1)];
    var s: seq<LogEvent> :| s in runs && PrefixOf(last, s);
    LastGrows(last, s, e, r, j, key);
    pieces := rest + [last + [e]];
    PrefixesFront(before, |before| - 1, runs);
    PrefixesNext(rest, last + [e], r, runs);
    ConcatNext(rest, last + [e]);
    Assoc(Concat(rest), last, [e]);
    TakeNext(file, n);
  }

  /** If `e` names `d`'s signature, the emitted copy of `e` follows an emitted event with that signature. */
  lemma Predecessor(d: LogEvent, s: seq<LogEvent>, m: nat, e: LogEvent, r: seq<LogEvent>, j: nat, key: string)
    requires IsRun(s, key) && IsRun(r, key) && m < |s| && j < |r|
    requires SameSigned(d, s[m]) && SameSigned(e, r[j]) && e.prevHash == d.signature
    ensures j > 0 && r[j - 1].signature == s[m].signature
  {
    assert ChainedAt(s, key, m) && ChainedAt(r, key, j);
  }

  lemma LastGrows(last: seq<LogEvent>, s: seq<LogEvent>, e: LogEvent, r: seq<LogEvent>, j: nat, key: string)
    requires IsRun(s, key) && IsRun(r, key) && PrefixOf(last, s)
    requires j < |r| && SameSigned(e, r[j]) && e.prevHash == last[|last| - 1].signature
    ensures PrefixOf(last + [e], r)
  {
    hide IsRun, SameUpTo;
    var m := |last| - 1;
    assert SameSigned(last[m], s[m]);
    Predecessor(last[m], s, m, e, r, j, key);
    SignatureFixesHistory(s, m, r, j - 1, key);
    PrefixGrows(last, s, r, e);
  }

  lemma PrefixGrows(piece: seq<LogEvent>, s: seq<LogEvent>, r: seq<LogEvent>, e: LogEvent)
    requires PrefixOf(piece, s) && SameUpTo(s, r, |piece|) && |piece| < |r| && SameSigned(e, r[|piece|])
    ensures PrefixOf(piece + [e], r)
  {
    forall i | 0 <= i <= |piece| ensures SameSigned((piece + [e])[i], r[i]) {
      if i < |piece| { assert SameSigned(piece[i], s[i]) && SameSigned(s[i], r[i]); }
    }
  }

  lemma LastPiece(pieces: seq<seq<LogEvent>>, runs: seq<seq<LogEvent>>, key: string) returns (r: seq<LogEvent>)
    requires AllRuns(runs, key) && Prefixes(pieces, runs) && pieces != []
    ensures IsRun(r, key) && PrefixOf(pieces[|pieces| - 1], r)
    ensures Prefixes(pieces[..|pieces| - 1], runs)
  {
    assert pieces[|pieces| - 1] in pieces;
    r :| r in runs && PrefixOf(pieces[|pieces| - 1], r);
    PrefixesFront(pieces, |pieces| - 1, runs);
  }

  /** A prefix of a run that follows a good stretch is good, and one more segment. */
  lemma LastPasses(last: seq<LogEvent>, r: seq<LogEvent>, key: string, file: seq<LogEvent>, mid: nat)
    requires IsRun(r, key) && PrefixOf(last, r) && Occurs(last, file, mid)
    requires AllGood(file, key, 0, mid)
    ensures AllGood(file, key, 0, mid + |last|) && Segments(file, mid + |last|) == Segments(file, mid) + 1
  {
    if mid > 0 { GoodIsSigned(file, key, mid - 1, |file|); }
    PiecePasses(last, r, key, file, mid, |last|);
    AllGoodJoins(file, key, mid, mid + |last|);
  }

  /** A concatenation of prefixes of runs passes, one segment for each prefix. */
  lemma {:induction false} PrefixesPass(
    pieces: seq<seq<LogEvent>>, runs: seq<seq<LogEvent>>, key: string, file: seq<LogEvent>, n: nat)
    requires AllRuns(runs, key) && Prefixes(pieces, runs)
    requires n <= |file| && Concat(pieces) == file[..n]
    ensures AllGood(file, key, 0, n) && Segments(file, n) == |pieces|
    decreases |pieces|
  {
    if pieces != [] {
      var rest, last := pieces[..|pieces| - 1], pieces[|pieces| - 1];
      var mid := n - |last|;
      var r := LastPiece(pieces, runs, key);
      FrontFits(Concat(rest), last, file, n);
      PrefixesPass(rest, runs, key, file, mid);
      LastPasses(last, r, key, file, mid);
    }
  }

  lemma FrontFits(front: seq<LogEvent>, last: seq<LogEvent>, file: seq<LogEvent>, n: nat)
    requires n <= |file| && front + last == file[..n]
    ensures |last| <= n && front == file[..n - |last|]
    ensures Occurs(last, file, n - |last|)
  {
    assert (front + last)[..|front|] == front && (front + last)[|front|..] == last;
  }

  ghost predicate Occurs(piece: seq<LogEvent>, file: seq<LogEvent>, at: nat) {
    at + |piece| <= |file| && forall i | 0 <= i < |piece| :: file[at + i] == piece[i]
  }

  lemma StillVerifies(e: LogEvent, f: LogEvent, key: string)
    requires SameSigned(e, f) && VerifySignature(f, key)
    ensures VerifySignature(e, key)
  {
  }

  lemma PieceLink(piece: seq<LogEvent>, r: seq<LogEvent>, key: string, file: seq<LogEvent>, at: nat, k: nat)
    requires IsRun(r, key) && PrefixOf(piece, r) && k < |piece| && Occurs(piece, file, at)
    requires at > 0 ==> file[at - 1].signature != Genesis
    ensures LinkAt(file, at + k) == (if k == 0 then Starts else Continues)
    ensures GoodAt(file, key, at + k)
  {
    assert file[at + k] == piece[k] && SameSigned(piece[k], r[k]) && ChainedAt(r, key, k);
    StillVerifies(piece[k], r[k], key);
    if k > 0 {
      assert file[at + (k - 1)] == piece[k - 1] && SameSigned(piece[k - 1], r[k - 1]) && ChainedAt(r, key, k - 1);
    }
  }

  lemma {:induction false} PiecePasses(
    piece: seq<LogEvent>, r: seq<LogEvent>, key: string, file: seq<LogEvent>, at: nat, n: nat)
    requires IsRun(r, key) && PrefixOf(piece, r) && 0 < n <= |piece|
    requires Occurs(piece, file, at)
    requires at > 0 ==> file[at - 1].signature != Genesis
    ensures AllGood(file, key, at, at + n)
    ensures Segments(file, at + n) == Segments(file, at) + 1
    decreases n
  {
    PieceLink(piece, r, key, file, at, n - 1);
    if n > 1 { PiecePasses(piece, r, key, file, at, n - 1); }
    AllGoodNext(file, key, at, at + n);
  }

  /**
   Main result: among files whose verifying events were really emitted, exactly the
   concatenations of non-empty prefixes of emitted runs are valid.
   */
  lemma ValidIffPrefixesOfRuns(file: seq<LogEvent>, runs: seq<seq<LogEvent>>, key: string)
    requires AllRuns(runs, key) && Authentic(file, runs, key)
    ensures Verdict(file, key).valid <==> exists pieces :: Prefixes(pieces, runs) && Concat(pieces) == file
  {
    NoViolationsIffGood(file, key, |file|);
    if Verdict(file, key).valid {
      var pieces := SplitIntoPrefixes(file, runs, key, |file|);
      assert file[..|file|] == file;
    }
    if exists pieces :: Prefixes(pieces, runs) && Concat(pieces) == file {
      var pieces :| Prefixes(pieces, runs) && Concat(pieces) == file;
      assert file[..|file|] == file;
      PrefixesPass(pieces, runs, key, file, |file|);
    }
  }

  /** `segments` is the number of process runs in the file, however it is cut into them. */
  lemma SegmentsCountRuns(pieces: seq<seq<LogEvent>>, runs: seq<seq<LogEvent>>, key: string)
    requires AllRuns(runs, key) && Prefixes(pieces, runs)
    ensures Verdict(Concat(pieces), key) == Verification(true, |Concat(pieces)|, |pieces|, [])
  {
    var file := Concat(pieces);
    assert file[..|file|] == file;
    PrefixesPass(pieces, runs, key, file, |file|);
    NoViolationsIffGood(Concat(pieces), key, |Concat(pieces)|);
  }

  // ------------------------------------------------------------------ deletions

  /** Positions that survive a deletion, in order. */
  ghost predicate Increasing(kept: seq<nat>, bound: nat) {
    && (forall i | 0 <= i < |kept| :: kept[i] < bound)
    && (forall i, j | 0 <= i < j < |kept| :: kept[i] < kept[j])
  }

  ghost function Survivors(r: seq<LogEvent>, kept: seq<nat>): (s: seq<LogEvent>)
    requires Increasing(kept, |r|)
    ensures |s| == |kept| && forall i | 0 <= i < |s| :: s[i] == r[kept[i]]
  {
    seq(|kept|, i requires 0 <= i < |kept| => r[kept[i]])
  }

  /** Something was deleted directly before the `i`-th survivor. */
  ghost predicate GapBefore(kept: seq<nat>, i: nat)
    requires i < |kept|
  {
    kept[i] != if i == 0 then 0 else kept[i - 1] + 1
  }

  ghost function GapReportAt(kept: seq<nat>, i: nat): seq<Violation>
    requires i < |kept|
  {
    if GapBefore(kept, i) then [Violation(kept[i] + 1, MissingEvent)] else []
  }

  /** One `missing_event` for each gap, naming the first survivor after it. */
  ghost function GapReports(kept: seq<nat>, n: nat): seq<Violation>
    requires n <= |kept|
  {
    if n == 0 then []
    else GapReports(kept, n - 1) + GapReportAt(kept, n - 1)
  }

  lemma SurvivorLink(r: seq<LogEvent>, kept: seq<nat>, key: string, i: nat)
    requires IsRun(r, key) && Increasing(kept, |r|) && i < |kept|
    ensures LinkAt(Survivors(r, kept), i) ==
            if GapBefore(kept, i) then Broken(MissingEvent) else if i == 0 then Starts else Continues
    ensures VerifySignature(r[kept[i]], key) && r[kept[i]].seqNo == kept[i] + 1
  {
    assert ChainedAt(r, key, kept[i]);
    if kept[i] > 0 { assert ChainedAt(r, key, kept[i] - 1); }
    if i > 0 { assert ChainedAt(r, key, kept[i - 1]); }
  }

  lemma SurvivorReport(r: seq<LogEvent>, kept: seq<nat>, key: string, i: nat)
    requires IsRun(r, key) && Increasing(kept, |r|) && i < |kept|
    ensures ViolationsAt(Survivors(r, kept), key, i) == GapReportAt(kept, i)
    ensures LinkAt(Survivors(r, kept), i).Starts? <==> i == 0 && kept[0] == 0
  {
    SurvivorLink(r, kept, key, i);
  }

  lemma {:induction false} ReportsMatch(file: seq<LogEvent>, kept: seq<nat>, key: string, n: nat)
    requires |file| == |kept| && n <= |kept|
    requires forall i | 0 <= i < |file| :: ViolationsAt(file, key, i) == GapReportAt(kept, i)
    ensures Violations(file, key, n) == GapReports(kept, n)
  {
    hide ViolationsAt, GapReportAt;
    if n > 0 { ReportsMatch(file, kept, key, n - 1); }
  }

  lemma GapsReported(r: seq<LogEvent>, kept: seq<nat>, key: string, n: nat)
    requires IsRun(r, key) && Increasing(kept, |r|) && n <= |kept|
    ensures Violations(Survivors(r, kept), key, n) == GapReports(kept, n)
  {
    var file := Survivors(r, kept);
    forall i | 0 <= i < |file| ensures ViolationsAt(file, key, i) == GapReportAt(kept, i) {
      SurvivorReport(r, kept, key, i);
    }
    ReportsMatch(file, kept, key, n);
  }

  lemma {:induction false} SurvivorSegments(r: seq<LogEvent>, kept: seq<nat>, key: string, n: nat)
    requires IsRun(r, key) && Increasing(kept, |r|) && n <= |kept|
    ensures Segments(Survivors(r, kept), n) == if n > 0 && kept[0] == 0 then 1 else 0
  {
    if n > 0 {
      SurvivorSegments(r, kept, key, n - 1);
      SurvivorReport(r, kept, key, n - 1);
    }
  }

  /**
   Deleting any events from one run, order kept, is reported as exactly one
   `missing_event` at the first survivor after each gap; a leading gap counts,
   a trailing one leaves no trace.
   */
  lemma DeletionsReported(r: seq<LogEvent>, kept: seq<nat>, key: string)
    requires IsRun(r, key) && Increasing(kept, |r|)
    ensures var v := Verdict(Survivors(r, kept), key);
            v.violations == GapReports(kept, |kept|)
            && v.segments == (if kept != [] && kept[0] == 0 then 1 else 0)
  {
    GapsReported(r, kept, key, |kept|);
    SurvivorSegments(r, kept, key, |kept|);
  }

  lemma {:induction false} NoReportsIffNoGaps(kept: seq<nat>, n: nat)
    requires n <= |kept|
    ensures GapReports(kept, n) == [] <==> forall i | 0 <= i < n :: !GapBefore(kept, i)
  {
    hide GapBefore;
    if n > 0 {
      NoReportsIffNoGaps(kept, n - 1);
      EmptyJoin(GapReports(kept, n - 1), GapReportAt(kept, n - 1));
    }
  }

  lemma {:induction false} NoGapsIsPrefix(kept: seq<nat>, i: nat)
    requires i < |kept| && forall k | 0 <= k <= i :: !GapBefore(kept, k)
    ensures kept[i] == i
  {
    assert !GapBefore(kept, i);
    if i > 0 { NoGapsIsPrefix(kept, i - 1); }
  }

  /** A deletion goes unnoticed exactly when only a tail is missing. */
  lemma OnlyTruncationIsSilent(r: seq<LogEvent>, kept: seq<nat>, key: string)
    requires IsRun(r, key) && Increasing(kept, |r|)
    ensures Verdict(Survivors(r, kept), key).valid <==> forall i | 0 <= i < |kept| :: kept[i] == i
  {
    DeletionsReported(r, kept, key);
    NoReportsIffNoGaps(kept, |kept|);
    if Verdict(Survivors(r, kept), key).valid {
      forall i | 0 <= i < |kept| ensures kept[i] == i { NoGapsIsPrefix(kept, i); }
    }
  }

  /** An authentic event that names its predecessor's signature also has the next number. */
  lemma AuthenticLink(file: seq<LogEvent>, runs: seq<seq<LogEvent>>, key: string, i: nat)
    requires i < |file| && AllRuns(runs, key) && Authentic(file, runs, key)
    requires forall k | 0 <= k < |file| :: VerifySignature(file[k], key)
    ensures LinkAt(file, i).Broken? ==> LinkAt(file, i) == Broken(MissingEvent)
  {
    hide VerifySignature, SameUpTo, IsRun;
    var r, j := EmittedEvent(file[i], runs, key);
    if i > 0 && file[i].prevHash == file[i - 1].signature {
      var s, k := EmittedEvent(file[i - 1], runs, key);
      SignatureFixesHistory(r, j - 1, s, k, key);
    }
  }

  lemma {:induction false} ReasonsUpTo(file: seq<LogEvent>, runs: seq<seq<LogEvent>>, key: string, n: nat)
    requires n <= |file| && AllRuns(runs, key) && Authentic(file, runs, key)
    requires forall i | 0 <= i < |file| :: VerifySignature(file[i], key)
    ensures forall v | v in Violations(file, key, n) :: v.reason == MissingEvent
  {
    if n > 0 {
      ReasonsUpTo(file, runs, key, n - 1);
      AuthenticLink(file, runs, key, n - 1);
    }
  }

  /** On authentic events, in whatever order, deleted or repeated, nothing but `missing_event` is ever reported. */
  lemma AuthenticNeverOutOfOrder(file: seq<LogEvent>, runs: seq<seq<LogEvent>>, key: string)
    requires AllRuns(runs, key) && Authentic(file, runs, key)
    requires forall i | 0 <= i < |file| :: VerifySignature(file[i], key)
    ensures forall v | v in Verdict(file, key).violations :: v.reason == MissingEvent
  {
    ReasonsUpTo(file, runs, key, |file|);
  }

  // ---------------------------------------------------------------- alterations

  /** Numbers of the events reported for their signature. */
  ghost function Mismatched(violations: seq<Violation>): seq<int> {
    if violations == [] then []
    else
      var v := violations[|violations| - 1];
      Mismatched(violations[..|violations| - 1]) + (if v.reason == SignatureMismatch then [v.seqNo] else [])
  }

  /** Numbers of the events whose signature does not verify. */
  ghost function Unsigned(file: seq<LogEvent>, key: string): seq<int> {
    if file == [] then []
    else
      var e := file[|file| - 1];
      Unsigned(file[..|file| - 1], key) + (if VerifySignature(e, key) then [] else [e.seqNo])
  }

  lemma {:induction false} MismatchedJoin(a: seq<Violation>, b: seq<Violation>)
    ensures Mismatched(a + b) == Mismatched(a) + Mismatched(b)
  {
    if b == [] {
      assert a + b == a;
    } else {
      AppendedFront(a, b);
      MismatchedJoin(a, b[..|b| - 1]);
    }
  }

  lemma MismatchedAt(file: seq<LogEvent>, key: string, i: nat)
    requires i < |file|
    ensures Mismatched(ViolationsAt(file, key, i)) == if VerifySignature(file[i], key) then [] else [file[i].seqNo]
  {
    hide VerifySignature;
    forall v: Violation ensures Mismatched([v]) == if v.reason == SignatureMismatch then [v.seqNo] else [] {
      assert [v][..0] == [];
    }
    MismatchedJoin(match LinkAt(file, i) case Broken(reason) => [Violation(file[i].seqNo, reason)] case _ => [],
                   if VerifySignature(file[i], key) then [] else [Violation(file[i].seqNo, SignatureMismatch)]);
  }

  lemma {:induction false} MismatchesUpTo(file: seq<LogEvent>, key: string, n: nat)
    requires n <= |file|
    ensures Mismatched(Violations(file, key, n)) == Unsigned(file[..n], key)
  {
    hide ViolationsAt, VerifySignature;
    if n > 0 {
      MismatchesUpTo(file, key, n - 1);
      MismatchedAt(file, key, n - 1);
      MismatchedJoin(Violations(file, key, n - 1), ViolationsAt(file, key, n - 1));
      TakeTake(file, n - 1, n);
    }
  }

  /** In any file whatever, `signature_mismatch` names exactly the events whose signature does not verify, in order. */
  lemma MismatchesNameTheUnsigned(file: seq<LogEvent>, key: string)
    ensures Mismatched(Verdict(file, key).violations) == Unsigned(file, key)
  {
    MismatchesUpTo(file, key, |file|);
    assert file[..|file|] == file;
  }

  /** When only two neighbours have something to report. */
  lemma {:induction false} OnlyReportsAt(file: seq<LogEvent>, key: string, i: nat, n: nat)
    requires i < |file| && n <= |file|
    requires forall k | 0 <= k < |file| && k != i && k != i + 1 :: ViolationsAt(file, key, k) == []
    ensures Violations(file, key, n) ==
            (if i < n then ViolationsAt(file, key, i) else []) + (if i + 1 < n then ViolationsAt(file, key, i + 1) else [])
  {
    hide ViolationsAt;
    if n > 0 { OnlyReportsAt(file, key, i, n - 1); }
  }

  /** Events of a run that keep their neighbour attach and verify. */
  lemma UnchangedReportsNothing(r: seq<LogEvent>, key: string, i: nat, f: LogEvent, k: nat)
    requires IsRun(r, key) && i < |r| && k < |r| && k != i
    requires f.signature == r[i].signature && (k == i + 1 ==> f.seqNo == r[i].seqNo)
    ensures ViolationsAt(r[i := f], key, k) == []
  {
    assert ChainedAt(r, key, k);
    if k > 0 { assert ChainedAt(r, key, k - 1); }
  }

  lemma AlteredDoesNotVerify(e: LogEvent, f: LogEvent, key: string)
    requires VerifySignature(e, key) && f.signature == e.signature
    requires f.seqNo != e.seqNo || Canonical(f) != Canonical(e)
    ensures !VerifySignature(f, key)
  {
  }

  lemma AlteredReport(r: seq<LogEvent>, key: string, i: nat, f: LogEvent)
    requires IsRun(r, key) && i < |r| && Canonical(f) != Canonical(r[i])
    requires f.seqNo == r[i].seqNo && f.prevHash == r[i].prevHash && f.signature == r[i].signature
    ensures ViolationsAt(r[i := f], key, i) == [Violation(i + 1, SignatureMismatch)]
  {
    hide VerifySignature, Canonical;
    assert ChainedAt(r, key, i);
    AlteredDoesNotVerify(r[i], f, key);
    if i > 0 { assert ChainedAt(r, key, i - 1); }
  }

  /** Content altered under an old signature, anywhere in a run: reported as just that, at just that event. */
  lemma AlteredContentReported(r: seq<LogEvent>, key: string, i: nat, f: LogEvent)
    requires IsRun(r, key) && i < |r| && Canonical(f) != Canonical(r[i])
    requires f.seqNo == r[i].seqNo && f.prevHash == r[i].prevHash && f.signature == r[i].signature
    ensures Verdict(r[i := f], key).violations == [Violation(i + 1, SignatureMismatch)]
  {
    hide VerifySignature, Canonical, ViolationsAt, IsRun;
    var file := r[i := f];
    AlteredReport(r, key, i, f);
    forall k | 0 <= k < |r| && k != i ensures ViolationsAt(file, key, k) == [] {
      UnchangedReportsNothing(r, key, i, f, k);
    }
    OnlyReportsAt(file, key, i, |file|);
  }

  lemma RenumberedReport(r: seq<LogEvent>, key: string, i: nat, number: int)
    requires IsRun(r, key) && i < |r| && number != i + 1
    ensures ViolationsAt(r[i := r[i].(seqNo := number)], key, i) ==
            (if i == 0 then [] else [Violation(number, if number <= i then OutOfOrder else MissingEvent)])
            + [Violation(number, SignatureMismatch)]
  {
    hide VerifySignature;
    assert ChainedAt(r, key, i);
    AlteredDoesNotVerify(r[i], r[i].(seqNo := number), key);
    if i > 0 { assert ChainedAt(r, key, i - 1); }
  }

  lemma NextReport(r: seq<LogEvent>, key: string, i: nat, number: int)
    requires IsRun(r, key) && i + 1 < |r| && number != i + 1
    ensures ViolationsAt(r[i := r[i].(seqNo := number)], key, i + 1) ==
            [Violation(i + 2, if i + 2 <= number then OutOfOrder else MissingEvent)]
  {
    hide VerifySignature;
    assert ChainedAt(r, key, i) && ChainedAt(r, key, i + 1);
  }

  /**
   A number altered in a run is reported for the signature, and for the order at the event and at the
   next one: `out_of_order` where the numbers do not rise, `missing_event` where they jump.
   */
  lemma AlteredNumberReported(r: seq<LogEvent>, key: string, i: nat, number: int)
    requires IsRun(r, key) && i < |r| && number != i + 1
    ensures Verdict(r[i := r[i].(seqNo := number)], key).violations ==
            (if i == 0 then [] else [Violation(number, if number <= i then OutOfOrder else MissingEvent)])
            + [Violation(number, SignatureMismatch)]
            + (if i + 1 == |r| then [] else [Violation(i + 2, if i + 2 <= number then OutOfOrder else MissingEvent)])
  {
    hide VerifySignature, ViolationsAt;
    var f := r[i].(seqNo := number);
    var file := r[i := f];
    forall k | 0 <= k < |r| && k != i && k != i + 1 ensures ViolationsAt(file, key, k) == [] {
      UnchangedReportsNothing(r, key, i, f, k);
    }
    OnlyReportsAt(file, key, i, |file|);
    RenumberedReport(r, key, i, number);
    if i + 1 < |r| { NextReport(r, key, i, number); }
  }
}
