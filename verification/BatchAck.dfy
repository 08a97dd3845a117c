/** One broker delivery carries a batch of messages and is settled as a whole. */
module BatchAck {

  datatype Settlement = Ack | Nack

  /** What the handler of one message does: acknowledges, refuses, raises, or neither. */
  datatype Answer = Acks | Nacks | Raises | Silent

  class BatchAckController {
    const total: nat
    var pending: int
    var finished: bool
    var settled: seq<Settlement>   // what was sent to the broker
    ghost var acks: nat            // acknowledgements that counted

    ghost predicate Valid()
      reads this
    {
      && |settled| <= 1 && (finished <==> settled != [])
      && (!finished ==> pending == total - acks && (acks > 0 ==> pending != 0))
      && (settled == [Ack] ==> acks == total > 0)
    }

    constructor (total: nat)
      ensures Valid() && settled == [] && acks == 0 && this.total == total
    {
      this.total := total;
      pending, finished, settled, acks := total, false, [], 0;
    }

    /** The delivery is acknowledged by exactly the acknowledgement number total. */
    method AckOne()
      requires Valid()
      modifies this
      ensures Valid()
      ensures acks == if old(settled) == [] then old(acks) + 1 else old(acks)
      ensures settled == if old(settled) == [] && old(acks) + 1 == total then [Ack] else old(settled)
    {
      if finished {
        return;
      }
      pending := pending - 1;
      acks := acks + 1;
      if pending == 0 {
        finished := true;
        settled := settled + [Ack];
      }
    }

    method NackAll()
      requires Valid()
      modifies this
      ensures Valid() && acks == old(acks)
      ensures settled == if old(settled) == [] then [Nack] else old(settled)
    {
      if finished {
        return;
      }
      finished := true;
      settled := settled + [Nack];
      assert settled[0] == Nack;
    }
  }

  predicate Refuses(answer: Answer) {
    answer == Nacks || answer == Raises
  }

  /** The messages handed to the handler: all, or those up to the first refusal. */
  function Reached(answers: seq<Answer>): (n: nat)
    ensures n <= |answers|
  {
    if answers == [] then 0
    else if Refuses(answers[0]) then 1
    else 1 + Reached(answers[1..])
  }

  /** How the broker sees it: refused at the first refusal, acknowledged if every message was. */
  function Settled(answers: seq<Answer>): seq<Settlement> {
    if exists i :: 0 <= i < |answers| && Refuses(answers[i]) then [Nack]
    else if answers != [] && forall i :: 0 <= i < |answers| ==> answers[i] == Acks then [Ack]
    else []
  }

  lemma {:induction false} ReachedIs(answers: seq<Answer>, n: nat)
    requires n <= |answers| && forall i :: 0 <= i < n ==> !Refuses(answers[i])
    ensures n < |answers| && Refuses(answers[n]) ==> Reached(answers) == n + 1
    ensures n == |answers| ==> Reached(answers) == n
    decreases n
  {
    if n > 0 {
      ReachedIs(answers[1..], n - 1);
    }
  }

  /**
   Hands the messages of a delivery to the handler, whose answers are given, and
   settles the delivery: at most once, and as Settled says. An empty batch and
   one with a silent handler are never settled.
   */
  method Deliver(answers: seq<Answer>) returns (controller: BatchAckController, handed: nat, raised: bool)
    ensures fresh(controller) && controller.Valid() && controller.settled == Settled(answers)
    ensures handed == Reached(answers)
    ensures raised <==> handed > 0 && answers[handed - 1] == Raises
    ensures handed <= |answers| && forall i :: 0 <= i < handed - 1 ==> !Refuses(answers[i])
    ensures handed < |answers| ==> handed > 0 && Refuses(answers[handed - 1])
  {
    controller := new BatchAckController(|answers|);
    handed, raised := 0, false;
    while handed < |answers|
      invariant 0 <= handed <= |answers|
      invariant controller.Valid() && controller.total == |answers| && fresh(controller)
      invariant forall i :: 0 <= i < handed ==> !Refuses(answers[i])
      invariant controller.settled == if handed == |answers| > 0 && controller.acks == handed then [Ack] else []
      invariant controller.acks <= handed
      invariant controller.acks == handed <==> forall i :: 0 <= i < handed ==> answers[i] == Acks
    {
      if controller.finished {
        break;
      }
      match answers[handed] {
        case Acks =>
          controller.AckOne();
        case Nacks =>
          ReachedIs(answers, handed);
          controller.NackAll();
          return controller, handed + 1, false;
        case Raises =>
          ReachedIs(answers, handed);
          controller.NackAll();
          return controller, handed + 1, true;
        case Silent =>
      }
      handed := handed + 1;
    }
    ReachedIs(answers, handed);
  }
}
