/**
 * The audit regression gate (apps/scheduler/src/audit-regression-gate.ts): scoring a sample,
 * aggregating a run, and comparing a candidate run with a baseline.
 */
module AuditGate {
  import opened Options

  datatype Label = TruePositive | FalsePositive | Unreachable | InsufficientEvidence | KnownAffected
    | FixedInRevision | LabelRefuted | LabelInconclusive | LabelDisputed

  datatype Outcome = Confirmed | Refuted | Inconclusive | NeedsHuman | Pending | EnvironmentFailed | EvalIncomplete

  datatype Sample = Sample(id: string, truth: Label, disputed: bool)

  datatype Cost = Cost(tokens: int, duration: int, evidenceComplete: bool, converged: bool)

  datatype Result = Result(id: string, outcome: Outcome, matched: Option<bool>, falseConfirm: bool, falseMiss: bool,
                           cost: Cost, environmentFailed: bool, evalIncomplete: bool)

  // ---------- Scoring ----------

  predicate Vulnerable(truth: Label) { truth.TruePositive? || truth.KnownAffected? }

  predicate Open(outcome: Outcome) { outcome in {Inconclusive, NeedsHuman, Pending} }

  function OutcomeMatches(outcome: Outcome, truth: Label): Option<bool> {
    if truth.LabelDisputed? then None
    else if outcome.EnvironmentFailed? || outcome.EvalIncomplete? then None
    else if Vulnerable(truth) then Some(outcome.Confirmed?)
    else if truth in {FalsePositive, LabelRefuted, Unreachable, FixedInRevision} then Some(outcome.Refuted?)
    else Some(Open(outcome))
  }

  /**
   * The label decides which outcomes match: confirmation for a vulnerable sample, refutation for a settled one,
   * and staying open for an undecided one.  A match and an error exclude each other, and an unscored result is
   * neither.
   */
  function ScoreSample(s: Sample, outcome: Outcome, cost: Cost): (r: Result)
    ensures r.id == s.id && r.outcome == outcome && r.cost == cost
    ensures r.environmentFailed <==> outcome == EnvironmentFailed
    ensures r.evalIncomplete <==> outcome == EvalIncomplete
    ensures r.matched.Some? <==> !s.disputed && s.truth != LabelDisputed && !r.environmentFailed && !r.evalIncomplete
    ensures r.matched.Some? && s.truth in {TruePositive, KnownAffected} ==>
              && (r.matched.value <==> outcome == Confirmed) && (r.falseMiss <==> outcome != Confirmed)
    ensures r.matched.Some? && s.truth in {FalsePositive, LabelRefuted, Unreachable, FixedInRevision} ==>
              (r.matched.value <==> outcome == Refuted)
    ensures r.matched.Some? && s.truth in {InsufficientEvidence, LabelInconclusive} ==>
              (r.matched.value <==> outcome != Confirmed && outcome != Refuted)
    ensures r.falseMiss ==> r.matched == Some(false) && s.truth in {TruePositive, KnownAffected}
    ensures r.falseConfirm <==>
              r.matched.Some? && outcome == Confirmed && s.truth != TruePositive && s.truth != KnownAffected
    ensures r.matched == Some(true) ==> !r.falseConfirm && !r.falseMiss
  {
    var matched := if s.disputed then None else OutcomeMatches(outcome, s.truth);
    var scored := !s.disputed && matched.Some? && !outcome.EnvironmentFailed? && !outcome.EvalIncomplete?;
    Result(s.id, outcome, matched,
           scored && outcome.Confirmed? && !Vulnerable(s.truth),
           scored && Vulnerable(s.truth) && !outcome.Confirmed?,
           cost, outcome.EnvironmentFailed?, outcome.EvalIncomplete?)
  }

  /** The label classes: vulnerable, settled otherwise, undecided. */
  function LabelClass(truth: Label): nat {
    match truth
    case TruePositive => 0
    case KnownAffected => 0
    case FalsePositive => 1
    case LabelRefuted => 1
    case Unreachable => 1
    case FixedInRevision => 1
    case InsufficientEvidence => 2
    case LabelInconclusive => 2
    case LabelDisputed => 3
  }

  /** No outcome matches labels of two classes, and labels of one class are matched alike. */
  lemma OneClassMatches(s: Sample, t: Sample, outcome: Outcome, cost: Cost)
    requires ScoreSample(s, outcome, cost).matched == Some(true) && !t.disputed && t.truth != LabelDisputed
    ensures ScoreSample(t, outcome, cost).matched == Some(LabelClass(t.truth) == LabelClass(s.truth))
  {
    var r := ScoreSample(t, outcome, cost);
    assert r.matched.Some?;
  }

  /** `new Map(results.map(...))`: of two results for a sample the later one counts. */
  function ById(results: seq<Result>): map<string, Result> {
    if results == [] then map[]
    else ById(results[..|results|-1])[results[|results|-1].id := results[|results|-1]]
  }

  // ---------- Aggregation ----------

  datatype Aggregates = Aggregates(labeled: int, disputed: int, matched: int, falseConfirms: int, falseMisses: int,
                                   inconclusive: int, evidenceIncomplete: int, environment: int, incomplete: int,
                                   tokens: int, duration: int)

  function One(b: bool): int { if b then 1 else 0 }

  function LabeledShare(r: Result): Aggregates {
    Aggregates(1, 0, One(r.matched == Some(true)), One(r.falseConfirm), One(r.falseMiss), One(Open(r.outcome)),
               One(!r.cost.evidenceComplete), One(r.environmentFailed), One(r.evalIncomplete),
               r.cost.tokens, r.cost.duration)
  }

  /** What one sample adds. */
  function Share(s: Sample, m: map<string, Result>): Aggregates {
    if s.id !in m then Aggregates(0, 0, 0, 0, 0, 0, 0, 0, 1, 0, 0)
    else
      var r := m[s.id];
      if s.disputed then Aggregates(0, 1, 0, 0, 0, 0, 0, 0, 0, r.cost.tokens, r.cost.duration)
      else LabeledShare(r)
  }

  function Plus(a: Aggregates, b: Aggregates): Aggregates {
    Aggregates(a.labeled + b.labeled, a.disputed + b.disputed, a.matched + b.matched,
               a.falseConfirms + b.falseConfirms, a.falseMisses + b.falseMisses, a.inconclusive + b.inconclusive,
               a.evidenceIncomplete + b.evidenceIncomplete, a.environment + b.environment,
               a.incomplete + b.incomplete, a.tokens + b.tokens, a.duration + b.duration)
  }

  function Total(samples: seq<Sample>, m: map<string, Result>): Aggregates {
    if samples == [] then ZERO
    else Plus(Total(samples[..|samples|-1], m), Share(samples[|samples|-1], m))
  }

  const ZERO := Aggregates(0, 0, 0, 0, 0, 0, 0, 0, 0, 0, 0)

  /** A run as the gate sees it: `fingerprint` stands for the digest of its configuration. */
  datatype Report = Report(runId: string, fingerprint: string, results: seq<Result>, aggregates: Aggregates,
                           inconclusiveRate: Option<real>)

  function Rate(t: Aggregates): Option<real> {
    if t.labeled > 0 then Some(t.inconclusive as real / t.labeled as real) else None
  }

  /** The counters after one more sample. */
  method CountSample(before: Aggregates, s: Sample, m: map<string, Result>) returns (t: Aggregates)
    ensures t == Plus(before, Share(s, m))
  {
    if s.id !in m {
      return before.(incomplete := before.incomplete + 1);
    }
    var r := m[s.id];
    t := before.(tokens := before.tokens + r.cost.tokens, duration := before.duration + r.cost.duration);
    if s.disputed {
      return t.(disputed := t.disputed + 1);
    }
    t := t.(labeled := t.labeled + 1);
    if r.matched == Some(true) { t := t.(matched := t.matched + 1); }
    if r.falseConfirm { t := t.(falseConfirms := t.falseConfirms + 1); }
    if r.falseMiss { t := t.(falseMisses := t.falseMisses + 1); }
    if r.outcome.Inconclusive? || r.outcome.NeedsHuman? || r.outcome.Pending? {
      t := t.(inconclusive := t.inconclusive + 1);
    }
    if !r.cost.evidenceComplete { t := t.(evidenceIncomplete := t.evidenceIncomplete + 1); }
    if r.environmentFailed { t := t.(environment := t.environment + 1); }
    if r.evalIncomplete { t := t.(incomplete := t.incomplete + 1); }
  }

  method Aggregate(samples: seq<Sample>, m: map<string, Result>) returns (t: Aggregates)
    ensures t == Total(samples, m)
  {
    t := ZERO;
    var i := 0;
    while i < |samples|
      invariant 0 <= i <= |samples|
      invariant t == Total(samples[..i], m)
    {
      TotalSnoc(samples, i, m);
      t := CountSample(t, samples[i], m);
      i := i + 1;
    }
    assert samples[..i] == samples;
  }

  method BuildReport(runId: string, fingerprint: string, samples: seq<Sample>, results: seq<Result>)
    returns (report: Report)
    ensures var total := Total(samples, ById(results));
            report == Report(runId, fingerprint, results, total, Rate(total))
    ensures report.inconclusiveRate.Some? <==> report.aggregates.labeled > 0
    ensures report.inconclusiveRate.Some? ==>
              var t := report.aggregates;
              report.inconclusiveRate.value * t.labeled as real == t.inconclusive as real
  {
    var m := ById(results);
    var t := Aggregate(samples, m);
    report := Report(runId, fingerprint, results, t, Rate(t));
  }

  lemma TotalSnoc(samples: seq<Sample>, i: nat, m: map<string, Result>)
    requires i < |samples|
    ensures Total(samples[..i+1], m) == Plus(Total(samples[..i], m), Share(samples[i], m))
  {
    assert samples[..i+1][..i] == samples[..i];
  }

  // ---------- Comparison ----------

  datatype Verdict = Same | Improved | Regressed | Environment | Incomplete | DisputedSkip

  datatype Line = Line(id: string, baseline: Outcome, candidate: Outcome, verdict: Verdict)

  datatype Reason = SameConfiguration | MoreFalseConfirms | MoreFalseMisses | QualityRegressed | EnvironmentNoise
    | EvaluationIncomplete

  datatype Comparison = Comparison(ok: bool, lists: Lists, reasons: set<Reason>)

  /** The verdict on two results that both count. */
  function Judge(b: Result, c: Result): Verdict {
    if b.matched == Some(true) && c.matched != Some(true) then Regressed
    else if b.matched != Some(true) && c.matched == Some(true) then Improved
    else if (c.falseConfirm && !b.falseConfirm) || (c.falseMiss && !b.falseMiss) then Regressed
    else Same
  }

  function VerdictOn(s: Sample, b: map<string, Result>, c: map<string, Result>): Verdict {
    if s.id !in b || s.id !in c then Incomplete
    else if s.disputed then DisputedSkip
    else if c[s.id].environmentFailed || b[s.id].environmentFailed then Environment
    else if c[s.id].evalIncomplete || b[s.id].evalIncomplete then Incomplete
    else Judge(b[s.id], c[s.id])
  }

  function LineFor(s: Sample, b: map<string, Result>, c: map<string, Result>): Line {
    Line(s.id,
         if s.id in b then b[s.id].outcome else EvalIncomplete,
         if s.id in c then c[s.id].outcome else EvalIncomplete,
         VerdictOn(s, b, c))
  }

  function WithVerdict(samples: seq<Sample>, b: map<string, Result>, c: map<string, Result>, v: Verdict): seq<string> {
    if samples == [] then []
    else
      var last := samples[|samples|-1];
      WithVerdict(samples[..|samples|-1], b, c, v) + (if VerdictOn(last, b, c) == v then [last.id] else [])
  }

  /** A sample passes when its verdict is neither a regression nor incomplete. */
  predicate Passes(s: Sample, b: map<string, Result>, c: map<string, Result>) {
    VerdictOn(s, b, c) !in {Regressed, Incomplete}
  }

  predicate Accepts(samples: seq<Sample>, b: map<string, Result>, c: map<string, Result>) {
    forall i :: 0 <= i < |samples| ==> Passes(samples[i], b, c)
  }

  /** The lists the comparison pushes to. */
  datatype Lists = Lists(regressions: seq<string>, improvements: seq<string>, noise: seq<string>,
                         incomplete: seq<string>, lines: seq<Line>)

  function ListsOf(samples: seq<Sample>, b: map<string, Result>, c: map<string, Result>): Lists {
    Lists(WithVerdict(samples, b, c, Regressed), WithVerdict(samples, b, c, Improved),
          WithVerdict(samples, b, c, Environment), WithVerdict(samples, b, c, Incomplete),
          seq(|samples|, i requires 0 <= i < |samples| => LineFor(samples[i], b, c)))
  }

  function Push(ls: Lists, line: Line): Lists {
    var id := [line.id];
    var v := line.verdict;
    Lists(if v.Regressed? then ls.regressions + id else ls.regressions,
          if v.Improved? then ls.improvements + id else ls.improvements,
          if v.Environment? then ls.noise + id else ls.noise,
          if v.Incomplete? then ls.incomplete + id else ls.incomplete,
          ls.lines + [line])
  }

  lemma ListsSnoc(samples: seq<Sample>, i: nat, b: map<string, Result>, c: map<string, Result>)
    requires i < |samples|
    ensures ListsOf(samples[..i+1], b, c) == Push(ListsOf(samples[..i], b, c), LineFor(samples[i], b, c))
  {
    assert samples[..i+1][..i] == samples[..i];
  }

  /** The loop over the samples. */
  method CompareSamples(samples: seq<Sample>, b: map<string, Result>, c: map<string, Result>) returns (ls: Lists)
    ensures ls == ListsOf(samples, b, c)
  {
    ls := Lists([], [], [], [], []);
    var i := 0;
    while i < |samples|
      invariant 0 <= i <= |samples|
      invariant ls == ListsOf(samples[..i], b, c)
    {
      var s := samples[i];
      ListsSnoc(samples, i, b, c);
      i := i + 1;
      if s.id !in b || s.id !in c {
        ls := ls.(incomplete := ls.incomplete + [s.id],
                  lines := ls.lines + [Line(s.id, if s.id in b then b[s.id].outcome else EvalIncomplete,
                                            if s.id in c then c[s.id].outcome else EvalIncomplete, Incomplete)]);
        continue;
      }
      var rb, rc := b[s.id], c[s.id];
      if s.disputed {
        ls := ls.(lines := ls.lines + [Line(s.id, rb.outcome, rc.outcome, DisputedSkip)]);
        continue;
      }
      if rc.environmentFailed || rb.environmentFailed {
        ls := ls.(noise := ls.noise + [s.id], lines := ls.lines + [Line(s.id, rb.outcome, rc.outcome, Environment)]);
        continue;
      }
      if rc.evalIncomplete || rb.evalIncomplete {
        ls := ls.(incomplete := ls.incomplete + [s.id],
          lines := ls.lines + [Line(s.id, rb.outcome, rc.outcome, Incomplete)]);
        continue;
      }
      var bMatch, cMatch := rb.matched == Some(true), rc.matched == Some(true);
      var verdict := Same;
      if bMatch && !cMatch {
        verdict := Regressed;
        ls := ls.(regressions := ls.regressions + [s.id]);
      } else if !bMatch && cMatch {
        verdict := Improved;
        ls := ls.(improvements := ls.improvements + [s.id]);
      } else if (rc.falseConfirm && !rb.falseConfirm) || (rc.falseMiss && !rb.falseMiss) {
        verdict := Regressed;
        ls := ls.(regressions := ls.regressions + [s.id]);
      }
      ls := ls.(lines := ls.lines + [Line(s.id, rb.outcome, rc.outcome, verdict)]);
    }
    assert samples[..i] == samples;
  }

  /** Accepted exactly when every sample passes. */
  method CompareRuns(samples: seq<Sample>, baseline: Report, candidate: Report) returns (r: Comparison)
    ensures r.ok <==> Accepts(samples, ById(baseline.results), ById(candidate.results))
    ensures r.lists == ListsOf(samples, ById(baseline.results), ById(candidate.results))
    ensures SameConfiguration in r.reasons <==> baseline.fingerprint == candidate.fingerprint
    ensures MoreFalseConfirms in r.reasons <==> candidate.aggregates.falseConfirms > baseline.aggregates.falseConfirms
    ensures MoreFalseMisses in r.reasons <==> candidate.aggregates.falseMisses > baseline.aggregates.falseMisses
    ensures QualityRegressed in r.reasons <==>
            exists i :: 0 <= i < |samples| &&
              VerdictOn(samples[i], ById(baseline.results), ById(candidate.results)) == Regressed
    ensures EnvironmentNoise in r.reasons <==>
            exists i :: 0 <= i < |samples| &&
              VerdictOn(samples[i], ById(baseline.results), ById(candidate.results)) == Environment
    ensures EvaluationIncomplete in r.reasons <==>
            exists i :: 0 <= i < |samples| &&
              VerdictOn(samples[i], ById(baseline.results), ById(candidate.results)) == Incomplete
  {
    var b, c := ById(baseline.results), ById(candidate.results);
    var reasons: set<Reason> := {};
    if baseline.fingerprint == candidate.fingerprint {
      reasons := reasons + {SameConfiguration};
    }
    var ls := CompareSamples(samples, b, c);
    if candidate.aggregates.falseConfirms > baseline.aggregates.falseConfirms {
      reasons := reasons + {MoreFalseConfirms};
    }
    if candidate.aggregates.falseMisses > baseline.aggregates.falseMisses {
      reasons := reasons + {MoreFalseMisses};
    }
    EmptyIffNone(samples, b, c, Regressed);
    EmptyIffNone(samples, b, c, Incomplete);
    EmptyIffNone(samples, b, c, Environment);
    var ok := ls.regressions == [] && ls.incomplete == [];
    if !ok && ls.regressions != [] {
      reasons := reasons + {QualityRegressed};
    }
    if ls.noise != [] {
      reasons := reasons + {EnvironmentNoise};
    }
    if ls.incomplete != [] {
      reasons := reasons + {EvaluationIncomplete};
    }
    r := Comparison(ok, ls, reasons);
  }

  lemma {:induction false} EmptyIffNone(samples: seq<Sample>, b: map<string, Result>, c: map<string, Result>,
    v: Verdict)
    ensures WithVerdict(samples, b, c, v) == [] <==> forall i :: 0 <= i < |samples| ==> VerdictOn(samples[i], b, c) != v
  {
    if samples != [] {
      EmptyIffNone(samples[..|samples|-1], b, c, v);
      assert VerdictOn(samples[|samples|-1], b, c) != v ==>
        forall i :: 0 <= i < |samples| ==> i == |samples| - 1 || samples[i] == samples[..|samples|-1][i];
    }
  }

  // ---------- Main results ----------

  /** Every result a run holds for these samples came out of `ScoreSample`. */
  predicate Scored(samples: seq<Sample>, m: map<string, Result>) {
    forall i :: 0 <= i < |samples| && samples[i].id in m ==>
      m[samples[i].id] == ScoreSample(samples[i], m[samples[i].id].outcome, m[samples[i].id].cost)
  }

  /** Some labeled sample failed for reasons of the environment in this run. */
  predicate Noisy(samples: seq<Sample>, m: map<string, Result>) {
    exists i :: 0 <= i < |samples| && !samples[i].disputed && samples[i].id in m && m[samples[i].id].environmentFailed
  }

  /** An accepted candidate, judged without environment noise, matches no fewer labels and makes no more
      errors of either kind. */
  lemma {:induction false} AcceptedRunIsNoWorse(samples: seq<Sample>, b: map<string, Result>, c: map<string, Result>)
    requires Scored(samples, b) && Scored(samples, c) && Accepts(samples, b, c)
    requires !Noisy(samples, b) && !Noisy(samples, c)
    ensures var tb, tc := Total(samples, b), Total(samples, c);
            tc.matched >= tb.matched && tc.falseConfirms <= tb.falseConfirms && tc.falseMisses <= tb.falseMisses
  {
    if samples != [] {
      var rest, last := samples[..|samples|-1], samples[|samples|-1];
      assert forall i :: 0 <= i < |rest| ==> rest[i] == samples[i];
      AcceptedRunIsNoWorse(rest, b, c);
      assert Passes(last, b, c);
    }
  }

  lemma SampleChain(s: Sample, a: map<string, Result>, b: map<string, Result>, c: map<string, Result>)
    requires Passes(s, a, b) && Passes(s, b, c)
    requires Scored([s], a) && Scored([s], b) && Scored([s], c)
    requires s.disputed || !b[s.id].environmentFailed
    ensures Passes(s, a, c)
  {
    assert [s][0] == s;
  }

  /** Acceptance composes along a chain of upgrades whose middle run had no environment noise. */
  lemma AcceptanceIsTransitive(samples: seq<Sample>, a: map<string, Result>, b: map<string, Result>,
    c: map<string, Result>)
    requires Scored(samples, a) && Scored(samples, b) && Scored(samples, c)
    requires Accepts(samples, a, b) && Accepts(samples, b, c) && !Noisy(samples, b)
    ensures Accepts(samples, a, c)
  {
    forall i | 0 <= i < |samples|
      ensures Passes(samples[i], a, c)
    {
      assert Passes(samples[i], a, b) && Passes(samples[i], b, c);
      SampleChain(samples[i], a, b, c);
    }
  }

  /** Through `b`, any two accepted upgrades compose. */
  ghost predicate Composes(samples: seq<Sample>, b: map<string, Result>) {
    forall ra: seq<Result>, rc: seq<Result> ::
      var a, c := ById(ra), ById(rc);
      Scored(samples, a) && Scored(samples, c) && Accepts(samples, a, b) && Accepts(samples, b, c) ==>
        Accepts(samples, a, c)
  }

  predicate DistinctIds(samples: seq<Sample>) {
    forall i, j :: 0 <= i < j < |samples| ==> samples[i].id != samples[j].id
  }

  /** The middle run holds a finished result for every labeled sample. */
  predicate Finished(samples: seq<Sample>, m: map<string, Result>) {
    forall i :: 0 <= i < |samples| ==>
      samples[i].id in m && (samples[i].disputed || !m[samples[i].id].evalIncomplete)
  }

  lemma AppendReplaces(results: seq<Result>, r: Result)
    ensures ById(results + [r]) == ById(results)[r.id := r]
  {
    assert (results + [r])[..|results|] == results;
  }

  /** Noise in the middle run hides an unfinished baseline from both comparisons. */
  lemma NoiseBreaksTheChain(samples: seq<Sample>, rb: seq<Result>)
    requires DistinctIds(samples) && Scored(samples, ById(rb)) && Finished(samples, ById(rb)) &&
        Noisy(samples, ById(rb))
    ensures !Composes(samples, ById(rb))
  {
    var b := ById(rb);
    var k :| 0 <= k < |samples| && !samples[k].disputed && samples[k].id in b && b[samples[k].id].environmentFailed;
    var ra := OneResultReplaced(samples, k, rb, EvalIncomplete);
    var rc := OneResultReplaced(samples, k, rb, Pending);
    var a, c := ById(ra), ById(rc);
    forall i | 0 <= i < |samples|
      ensures Passes(samples[i], a, b) && Passes(samples[i], b, c)
    {
      assert i != k ==> a[samples[i].id] == b[samples[i].id] == c[samples[i].id];
    }
    assert !Passes(samples[k], a, c);
  }

  // ---------- Regressions that noise hides ----------

  /** Labels that can be judged: a disputed label only on a disputed sample. */
  predicate ValidLabels(samples: seq<Sample>) {
    forall i :: 0 <= i < |samples| ==> samples[i].disputed || !samples[i].truth.LabelDisputed?
  }

  function Matching(truth: Label): Outcome {
    if Vulnerable(truth) then Confirmed
    else if truth in {FalsePositive, LabelRefuted, Unreachable, FixedInRevision} then Refuted
    else Inconclusive
  }

  function Missing(truth: Label): Outcome { if Vulnerable(truth) then Refuted else Confirmed }

  /** Upgrades from `a` to `b` and from `b` to `c` are accepted; from `a` to `c` a sample regressed and fewer match. */
  predicate HidesRegression(samples: seq<Sample>, a: map<string, Result>, b: map<string, Result>,
    c: map<string, Result>, i: nat) {
    && i < |samples| && Scored(samples, a) && Scored(samples, c) && Accepts(samples, a, b) && Accepts(samples, b, c)
    && VerdictOn(samples[i], a, c) == Regressed && Total(samples, c).matched < Total(samples, a).matched
  }

  lemma {:induction false} SameTotals(samples: seq<Sample>, a: map<string, Result>, c: map<string, Result>)
    requires forall i :: 0 <= i < |samples| ==> Share(samples[i], a) == Share(samples[i], c)
    ensures Total(samples, a) == Total(samples, c)
  {
    if samples != [] { SameTotals(samples[..|samples|-1], a, c); }
  }

  /** Runs that agree on all samples but one differ by its share. */
  lemma {:induction false} TotalsApart(samples: seq<Sample>, k: nat, a: map<string, Result>, c: map<string, Result>)
    requires k < |samples|
    requires forall i :: 0 <= i < |samples| && i != k ==> Share(samples[i], a) == Share(samples[i], c)
    ensures Total(samples, a).matched - Total(samples, c).matched ==
        Share(samples[k], a).matched - Share(samples[k], c).matched
  {
    var rest := samples[..|samples|-1];
    assert forall i :: 0 <= i < |rest| ==> rest[i] == samples[i];
    if k == |samples| - 1 {
      SameTotals(rest, a, c);
    } else {
      TotalsApart(rest, k, a, c);
    }
  }

  lemma OneResultReplaced(samples: seq<Sample>, k: nat, rb: seq<Result>, outcome: Outcome) returns (r: seq<Result>)
    requires k < |samples| && DistinctIds(samples) && Scored(samples, ById(rb)) && samples[k].id in ById(rb)
    ensures Scored(samples, ById(r)) && samples[k].id in ById(r)
    ensures ById(r)[samples[k].id] == ScoreSample(samples[k], outcome, ById(rb)[samples[k].id].cost)
    ensures forall i :: 0 <= i < |samples| && i != k ==>
              (samples[i].id in ById(r) <==> samples[i].id in ById(rb))
              && (samples[i].id in ById(rb) ==> ById(r)[samples[i].id] == ById(rb)[samples[i].id])
  {
    var scored := ScoreSample(samples[k], outcome, ById(rb)[samples[k].id].cost);
    r := rb + [scored];
    AppendReplaces(rb, scored);
    assert forall i :: 0 <= i < |samples| && i != k ==> samples[i].id != samples[k].id;
  }

  lemma NoiseHidesARegression(samples: seq<Sample>, rb: seq<Result>) returns (ra: seq<Result>, rc: seq<Result>, k: nat)
    requires DistinctIds(samples) && ValidLabels(samples)
    requires Scored(samples, ById(rb)) && Finished(samples, ById(rb)) && Noisy(samples, ById(rb))
    ensures HidesRegression(samples, ById(ra), ById(rb), ById(rc), k)
  {
    var b := ById(rb);
    k :| 0 <= k < |samples| && !samples[k].disputed && samples[k].id in b && b[samples[k].id].environmentFailed;
    var s := samples[k];
    ra := OneResultReplaced(samples, k, rb, Matching(s.truth));
    rc := OneResultReplaced(samples, k, rb, Missing(s.truth));
    var a, c := ById(ra), ById(rc);
    assert a[s.id].matched == Some(true) && c[s.id].matched == Some(false);
    forall i | 0 <= i < |samples|
      ensures Passes(samples[i], a, b) && Passes(samples[i], b, c)
    {
      assert i != k ==> a[samples[i].id] == b[samples[i].id] == c[samples[i].id];
    }
    TotalsApart(samples, k, a, c);
  }

  lemma QuietHidesNone(samples: seq<Sample>, a: map<string, Result>, b: map<string, Result>, c: map<string, Result>,
    i: nat)
    requires Scored(samples, b) && !Noisy(samples, b)
    ensures !HidesRegression(samples, a, b, c, i)
  {
    if Scored(samples, a) && Scored(samples, c) && Accepts(samples, a, b) && Accepts(samples, b, c) {
      AcceptanceIsTransitive(samples, a, b, c);
      assert i < |samples| ==> Passes(samples[i], a, c);
    }
  }

  /** Some accepted pair of upgrades through this run hides a regression. */
  ghost predicate Hides(samples: seq<Sample>, rb: seq<Result>) {
    exists ra: seq<Result>, rc: seq<Result>, i: nat :: HidesRegression(samples, ById(ra), ById(rb), ById(rc), i)
  }

  /**
   * A finished middle run lets a real regression through - both upgrades accepted, a sample that matched its
   * label no longer does, fewer match in all - if and only if it had environment noise on a labeled sample.
   */
  lemma HidesRegressionIffNoisy(samples: seq<Sample>, rb: seq<Result>)
    requires DistinctIds(samples) && ValidLabels(samples) && Scored(samples, ById(rb)) && Finished(samples, ById(rb))
    ensures Hides(samples, rb) <==> Noisy(samples, ById(rb))
  {
    if Noisy(samples, ById(rb)) {
      var ra, rc, k := NoiseHidesARegression(samples, rb);
    } else if Hides(samples, rb) {
      var ra: seq<Result>, rc: seq<Result>, i: nat :| HidesRegression(samples, ById(ra), ById(rb), ById(rc), i);
      QuietHidesNone(samples, ById(ra), ById(rb), ById(rc), i);
    }
  }

  /** A finished run passes acceptance on exactly when it had no environment noise on a labeled sample. */
  lemma ComposesIffQuiet(samples: seq<Sample>, rb: seq<Result>)
    requires DistinctIds(samples) && Scored(samples, ById(rb)) && Finished(samples, ById(rb))
    ensures Composes(samples, ById(rb)) <==> !Noisy(samples, ById(rb))
  {
    var b := ById(rb);
    if Noisy(samples, b) {
      NoiseBreaksTheChain(samples, rb);
    } else {
      forall ra: seq<Result>, rc: seq<Result> | Scored(samples, ById(ra)) && Scored(samples, ById(rc))
                                                && Accepts(samples, ById(ra), b) && Accepts(samples, b, ById(rc))
        ensures Accepts(samples, ById(ra), ById(rc))
      {
        AcceptanceIsTransitive(samples, ById(ra), b, ById(rc));
      }
    }
  }

  /** Chains of any length: if every run but the last is quiet, the first accepts the last. */
  lemma {:induction false} ChainAccepts(samples: seq<Sample>, runs: seq<map<string, Result>>)
    requires 2 <= |runs|
    requires forall i :: 0 <= i < |runs| ==> Scored(samples, runs[i])
    requires forall i :: 0 <= i < |runs| - 1 ==> Accepts(samples, runs[i], runs[i+1])
    requires forall i :: 0 < i < |runs| - 1 ==> !Noisy(samples, runs[i])
    ensures Accepts(samples, runs[0], runs[|runs|-1])
  {
    var n := |runs|;
    if n > 2 {
      ChainAccepts(samples, runs[..n-1]);
      assert Accepts(samples, runs[n-2], runs[n-2+1]);
      AcceptanceIsTransitive(samples, runs[0], runs[n-2], runs[n-1]);
    } else {
      assert Accepts(samples, runs[0], runs[0+1]);
    }
  }
}
