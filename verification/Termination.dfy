/**
 * Decoding as a whole: when it ends, when it cannot, and that the iteration
 * budget of the four loops changes no outcome.
 */
module Termination {
  import opened Basics
  import opened Wire
  import opened Decoder
  import opened DecoderLaws

  // ---------------------------------------------------------------------
  // Outcomes of fields
  // ---------------------------------------------------------------------

  /** The loop that parses the value of a top-level field, if one does. */
  function SubLoop(e: Event): Option<Msg> {
    if !e.payload.Bytes? then None
    else if e.field == 1 then Some(Header)
    else if e.field == 2 then Some(Metrics)
    else if e.field == 3 then Some(Status)
    else None
  }

  /** How that loop ends; a field without one is simply taken. */
  function SubEnd(e: Event): End {
    if SubLoop(e).None? then Finished
    else Run(SubLoop(e).value, e.payload.bytes, 0, |e.payload.bytes|).end
  }

  /** What a field does to the outcome does not depend on the record it is applied to. */
  lemma ApplyEnds(p: PayloadRec, e: Event)
    ensures ApplyRequest(p, e).Done? <==> SubEnd(e).Finished?
    ensures ApplyRequest(p, e).Hangs? <==> SubEnd(e).Unfinished?
  {
    hide Run, FoldHeader, FoldMetrics, FoldStatus;
  }

  /** The end of the first submessage that does not finish. */
  function FirstEnd(es: seq<Event>): End
    decreases |es|
  {
    if es == [] then Finished else if SubEnd(es[0]).Finished? then FirstEnd(es[1..]) else SubEnd(es[0])
  }

  lemma {:induction false} FoldEnds(p: PayloadRec, es: seq<Event>)
    ensures FoldRequest(p, es).Done? <==> FirstEnd(es).Finished?
    ensures FoldRequest(p, es).Hangs? <==> FirstEnd(es).Unfinished?
    decreases |es|
  {
    hide ApplyRequest, SubEnd;
    if es != [] {
      ApplyEnds(p, es[0]);
      match ApplyRequest(p, es[0])
      case Done(q) => FoldEnds(q, es[1..]);
      case _ =>
    }
  }

  lemma {:induction false} AllFinish(es: seq<Event>)
    ensures FirstEnd(es).Finished? <==> forall e | e in es :: SubEnd(e).Finished?
    ensures !FirstEnd(es).Finished? ==> exists e :: e in es && SubEnd(e) == FirstEnd(es)
    decreases |es|
  {
    hide SubEnd;
    if es != [] {
      AllFinish(es[1..]);
      assert es == [es[0]] + es[1..];
    }
  }

  // ---------------------------------------------------------------------
  // Events and the iterations that take them
  // ---------------------------------------------------------------------

  predicate TakenAt(m: Msg, data: seq<byte>, pos: nat, k: nat, e: Event) {
    var r := Reached(m, data, pos, k);
    r.Some? && Goes(m, data, r.value) && Lex(m, data, r.value).event == e
  }

  lemma {:induction false} EventTaken(m: Msg, data: seq<byte>, pos: nat, fuel: nat, e: Event) returns (k: nat)
    requires e in Run(m, data, pos, fuel).events
    ensures k < fuel && TakenAt(m, data, pos, k, e)
    decreases fuel
  {
    hide Lex;
    if Lex(m, data, pos).event == e {
      k := 0;
    } else {
      k := EventTaken(m, data, Lex(m, data, pos).next, fuel - 1, e);
      k := k + 1;
    }
  }

  lemma {:induction false} TakenEvent(m: Msg, data: seq<byte>, pos: nat, fuel: nat, k: nat, e: Event)
    requires k < fuel && TakenAt(m, data, pos, k, e)
    ensures e in Run(m, data, pos, fuel).events
    decreases fuel
  {
    hide Lex;
    if k > 0 { TakenEvent(m, data, Lex(m, data, pos).next, fuel - 1, k - 1, e); }
  }

  lemma {:induction false} RunPrefix(m: Msg, data: seq<byte>, pos: nat, fuel: nat, more: nat)
    requires fuel <= more
    ensures Run(m, data, pos, fuel).events <= Run(m, data, pos, more).events
    decreases fuel
  {
    hide Lex;
    if fuel > 0 && Goes(m, data, pos) { RunPrefix(m, data, Lex(m, data, pos).next, fuel - 1, more - 1); }
  }

  /** A loop that never ends shows all its events within |data| iterations. */
  lemma NoNewEvents(m: Msg, data: seq<byte>, fuel: nat, e: Event)
    requires Run(m, data, 0, |data|).end.Unfinished? && e in Run(m, data, 0, fuel).events
    ensures e in Run(m, data, 0, |data|).events
  {
    hide Run, Lex, Reached;
    var i, j := UnfinishedRepeats(m, data);
    var k := EventTaken(m, data, 0, fuel, e);
    var l := GoesRound(m, data, i, j, k);
    TakenEvent(m, data, 0, |data|, l, e);
  }

  // ---------------------------------------------------------------------
  // The budget
  // ---------------------------------------------------------------------

  /** No larger budget changes how a loop ends, nor the trace of one that does. */
  lemma LoopBudget(m: Msg, data: seq<byte>, fuel: nat)
    requires fuel >= |data|
    ensures Run(m, data, 0, fuel).end == Run(m, data, 0, |data|).end
    ensures !Run(m, data, 0, |data|).end.Unfinished? ==> Run(m, data, 0, fuel) == Run(m, data, 0, |data|)
  {
    hide Run;
    if Run(m, data, 0, |data|).end.Unfinished? {
      UnfinishedIsForever(m, data, fuel);
    } else {
      RunStable(m, data, 0, |data|, fuel);
    }
  }

  /** No larger budget changes what decoding a whole message comes to: in particular a hang stays a hang. */
  lemma BudgetIsEnough(p: PayloadRec, data: seq<byte>, fuel: nat)
    requires fuel >= |data|
    ensures RequestOf(Run(Request, data, 0, fuel), p) == DecodedOnto(p, data)
  {
    hide Run, FoldRequest, FirstEnd, SubEnd;
    LoopBudget(Request, data, fuel);
    if Run(Request, data, 0, |data|).end.Unfinished? {
      var few, all := Run(Request, data, 0, |data|).events, Run(Request, data, 0, fuel).events;
      RunPrefix(Request, data, 0, |data|, fuel);
      assert all == few + all[|few|..];
      FoldRequestConcat(p, few, all[|few|..]);
      forall e | e in all ensures e in few { NoNewEvents(Request, data, fuel, e); }
      AllFinish(few);
      AllFinish(all);
      FoldEnds(p, few);
      FoldEnds(p, all);
    }
  }

  // ---------------------------------------------------------------------
  // When decoding ends
  // ---------------------------------------------------------------------

  /** Every skip that decoding reaches, at top level or in a submessage, has a length below 2^63. */
  predicate ShortEverywhere(data: seq<byte>) {
    && ShortSkips(Request, data, 0, |data|)
    && forall e | e in Run(Request, data, 0, |data|).events && SubLoop(e).Some? ::
         ShortSkips(SubLoop(e).value, e.payload.bytes, 0, |e.payload.bytes|)
  }

  lemma {:induction false} BytesInside(m: Msg, data: seq<byte>, pos: nat, fuel: nat)
    ensures forall e | e in Run(m, data, pos, fuel).events && e.payload.Bytes? :: |e.payload.bytes| <= |data|
    decreases fuel
  {
    if fuel > 0 && Goes(m, data, pos) {
      LexInside(m, data, pos);
      hide Lex;
      BytesInside(m, data, Lex(m, data, pos).next, fuel - 1);
    }
  }

  lemma LexInside(m: Msg, data: seq<byte>, pos: nat)
    ensures Lex(m, data, pos).Field? && Lex(m, data, pos).event.payload.Bytes? ==>
              |Lex(m, data, pos).event.payload.bytes| <= |data|
  {
  }

  /** Then decoding ends, with a payload or an error. */
  lemma DecodingTerminates(p: PayloadRec, data: seq<byte>)
    requires ShortEverywhere(data) && |data| < TWO_63
    ensures DecodedOnto(p, data) != Hangs
  {
    hide Run, FoldRequest, FirstEnd, ShortSkips;
    var es := Run(Request, data, 0, |data|).events;
    ShortSkipsTerminate(Request, data, 0, |data|);
    BytesInside(Request, data, 0, |data|);
    FoldEnds(p, es);
    AllFinish(es);
    if FirstEnd(es).Unfinished? {
      var e :| e in es && SubEnd(e) == FirstEnd(es);
      ShortSkipsTerminate(SubLoop(e).value, e.payload.bytes, 0, |e.payload.bytes|);
      assert false;
    }
  }

  /**
   * In general decoding fails to end exactly if some loop comes back to where it
   * stood: the loop of the first submessage that does not finish, or, when all
   * of them finish, the top-level one.
   */
  lemma HangsIffComesRound(p: PayloadRec, data: seq<byte>)
    ensures var end := FirstEnd(Run(Request, data, 0, |data|).events);
            DecodedOnto(p, data) == Hangs <==> end.Unfinished? || (end.Finished? && ComesRound(Request, data))
    ensures forall e | SubLoop(e).Some? :: SubEnd(e).Unfinished? <==> ComesRound(SubLoop(e).value, e.payload.bytes)
  {
    hide Run, FoldRequest, FirstEnd, ComesRound, NeverEnds;
    FoldEnds(p, Run(Request, data, 0, |data|).events);
    NeverEndsIffComesRound(Request, data);
    forall e | SubLoop(e).Some?
      ensures SubEnd(e).Unfinished? <==> ComesRound(SubLoop(e).value, e.payload.bytes)
    {
      NeverEndsIffComesRound(SubLoop(e).value, e.payload.bytes);
    }
  }
}
