/** What a detector that serves many pairs knows of each of them (detection/benford_drift_detector.py, lines
    255-399). */
module PairDrift {
  import opened BenfordDrift
  import opened Common
  import opened Tenancy

  ghost function OpsOf(own: seq<Request<(Settings, Op)>>): (ops: seq<Op>)
    ensures |ops| == |own| && forall j :: 0 <= j < |own| ==> ops[j] == own[j].body.1
  {
    seq(|own|, j requires 0 <= j < |own| => own[j].body.1)
  }

  ghost predicate UnderSettings(cfg: Settings, rs: seq<Request<(Settings, Op)>>) {
    forall j :: 0 <= j < |rs| ==> rs[j].body.0 == cfg
  }

  lemma {:induction false} OwnUnderSettings(cfg: Settings, rs: seq<Request<(Settings, Op)>>, pair: string)
    requires UnderSettings(cfg, rs)
    ensures UnderSettings(cfg, Own(rs, pair))
  {
    if rs != [] { OwnUnderSettings(cfg, rs[1..], pair); }
  }

  /** Nothing is stored before the first operation; afterwards the states of the run. */
  ghost function Stored(ps: seq<PairState>): (ss: seq<Option<PairState>>)
    requires ps != []
    ensures |ss| == |ps| && ss[0] == None && forall j :: 0 < j < |ps| ==> ss[j] == Some(ps[j])
  {
    seq(|ps|, j requires 0 <= j < |ps| => if j == 0 then None else Some(ps[j]))
  }

  /** What the operation at position `j` of a run answers. */
  ghost function AnswerAt(cfg: Settings, ops: seq<Op>, ps: seq<PairState>, j: nat): Option<Status>
    requires IsRun(cfg, ops, ps) && j < |ops|
  {
    assert Moves(cfg, ps, ops, j);
    match ops[j]
    case Fit(_) => None
    case Check(chi, mad) => Some(StatusOf(Judged(cfg, ps[j].base, chi, mad)))
  }

  lemma StoredStep(cfg: Settings, own: seq<Request<(Settings, Op)>>, ps: seq<PairState>, j: nat)
    requires UnderSettings(cfg, own) && IsRun(cfg, OpsOf(own), ps) && j < |own|
    ensures Leads(PairStep, own, Stored(ps), j)
    ensures PairStep(Stored(ps)[j], own[j].body).1 == AnswerAt(cfg, OpsOf(own), ps, j)
  {
    assert Moves(cfg, ps, OpsOf(own), j);
    assert Stored(ps)[j].GetOr(NEW_PAIR) == ps[j];
  }

  lemma StoredAreStates(cfg: Settings, own: seq<Request<(Settings, Op)>>, pair: string, ps: seq<PairState>)
    requires UnderSettings(cfg, own) && IsRun(cfg, OpsOf(own), ps)
    requires forall j :: 0 <= j < |own| ==> own[j].tenant == pair
    ensures Tenancy.AreStates(PairStep, own, pair, Stored(ps))
  {
    forall j | 0 <= j < |own|
      ensures Leads(PairStep, own, Stored(ps), j)
    {
      StoredStep(cfg, own, ps, j);
    }
  }

  /** However pairs are interleaved, each has a run of its own operations that tells all its answers, and the state it
      is left in: the drifted map counts its drifted verdicts since the last stable one, its total counts its entries
      into drift, and its baseline is the two-pass statistics of its own accepted samples. */
  lemma EachPairHasItsRun(cfg: Settings, rs: seq<Request<(Settings, Op)>>, pair: string) returns (ps: seq<PairState>)
    requires UnderSettings(cfg, rs)
    ensures var ops, answers := OpsOf(Own(rs, pair)), Picked(rs, Answers(PairStep, rs, map[]), pair);
            && IsRun(cfg, ops, ps) && |answers| == |ops|
            && forall j :: 0 <= j < |ops| ==> answers[j] == AnswerAt(cfg, ops, ps, j)
    ensures var ops, last := OpsOf(Own(rs, pair)), Lookup(After(PairStep, rs, map[]), pair).GetOr(NEW_PAIR);
            var vs, xs, ys := Verdicts(cfg, ops, ps, |ops|), ChiSquares(ops, |ops|), Mads(ops, |ops|);
            && last.streak == Trailing(vs)
            && last.base.GetOr(NEW_BASE).driftCountTotal == Entries(vs)
            && (last.base.Some? <==> xs != [])
            && (last.base.Some? ==> ys != [] && last.base.value.chiSquare == TwoPass(xs) &&
                                    last.base.value.mad == TwoPass(ys))
  {
    var own := Own(rs, pair);
    var ops := OpsOf(own);
    RunExists(cfg, ops);
    ps :| IsRun(cfg, ops, ps);
    OwnUnderSettings(cfg, rs, pair);
    OwnAreOf(rs, pair);
    StoredAreStates(cfg, own, pair, ps);
    AnswersByState(PairStep, own, map[], pair, Stored(ps));
    PairsAreIsolated(rs, pair);
    forall j | 0 <= j < |ops|
      ensures Answers(PairStep, own, map[])[j] == AnswerAt(cfg, ops, ps, j)
    {
      StoredStep(cfg, own, ps, j);
    }
    AfterByState(PairStep, rs, map[], pair, Stored(ps));
    DriftCountsEntries(cfg, ops, ps, |ops|);
    BaselineIsTwoPass(cfg, ops, ps, |ops|);
  }
}
