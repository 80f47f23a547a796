/**
 * Authentication vectors over whole runs: the batch provisioned for the ePDG, and a
 * network and a USIM exchanging vectors, with losses, until the SQN is used up.
 */
module AkaRuns {
  import opened Bits
  import opened Digits
  import opened Milenage
  import opened Python
  import opened Wrappers

  datatype Vector = Vector(rand: Block, autn: seq<byte>, answer: Answer)

  /** Both generators' vector for a SQN; an error when it does not fit in six bytes. */
  function MakeVector(e: Block -> Block, opc: Block, rand: Block, amf: seq<byte>, sqn: int): Result<Vector>
    requires |amf| == 2
  {
    if !SqnFits(sqn) then Err
    else Ok(Vector(rand, Autn(e, opc, rand, BigBytes(sqn, 6), amf), F234(e, opc, rand)))
  }

  /** A vector is accepted exactly when its SQN is at least the stored one, with the network's own answer. */
  lemma VectorAuthenticates(e: Block -> Block, opc: Block, rand: Block, amf: seq<byte>, sqn: int, sqnStored: int)
    requires |amf| == 2 && SqnFits(sqn)
    ensures var v := MakeVector(e, opc, rand, amf, sqn).value;
            Authenticate(e, opc, v.rand, v.autn, sqnStored) == Ok(if sqn >= sqnStored then Some(v.answer) else None)
  {
    hide Authenticate, Autn, F234, Pow2;
    Pow2Large();
    GeneratedToken(e, opc, rand, sqn, amf, sqnStored);
  }

  // ---- Provisioning -------------------------------------------------------

  datatype Quintuplet = Quintuplet(permanent: string, vector: Vector)

  function Nai(imsi: string): string {
    "0" + imsi + "@nai.epc.mnc" + ZFill(Slice(imsi, 3, 5), 3) + ".mcc" + Slice(imsi, 0, 3) + ".3gppnetwork.org"
  }

  /** The identity as it is written: the home network's codes are the IMSI's first five digits. */
  lemma NaiText(imsi: string)
    requires |imsi| >= 5 && imsi[3] != '+' && imsi[3] != '-'
    ensures Nai(imsi) == "0" + imsi + "@nai.epc.mnc0" + imsi[3..5] + ".mcc" + imsi[..3] + ".3gppnetwork.org"
  {
    assert imsi[0..3] == imsi[..3];
    assert Zeros(1) == "0";
    var front := "0" + imsi;
    assert front + "@nai.epc.mnc" + ("0" + imsi[3..5]) == front + "@nai.epc.mnc0" + imsi[3..5];
  }

  const ProvisionedAmf: seq<byte> := [0x80, 0x00]

  /**
   * `count` vectors, 32 apart, or an error when one of their SQNs does not fit. The
   * random challenges are `rands`, in order of use.
   */
  method GenerateQuintuplets(e: Block -> Block, opc: Block, imsi: string, count: int, sqnStart: int, rands: nat -> Block)
      returns (r: Result<seq<Quintuplet>>)
    ensures r.Ok? <==> count <= 0 || (0 <= sqnStart && SqnFits(sqnStart + 32 * (count - 1)))
    ensures r.Ok? ==> |r.value| == if count <= 0 then 0 else count
    ensures r.Ok? ==> forall i :: 0 <= i < |r.value| ==>
              r.value[i].permanent == Nai(imsi)
              && Ok(r.value[i].vector) == MakeVector(e, opc, rands(i), ProvisionedAmf, sqnStart + 32 * i)
  {
    hide Autn, F234;
    var quintuplets: seq<Quintuplet> := [];
    var i := 0;
    while i < count
      invariant 0 <= i && (i <= count || i == 0) && |quintuplets| == i
      invariant i > 0 ==> 0 <= sqnStart && SqnFits(sqnStart + 32 * (i - 1))
      invariant forall k :: 0 <= k < i ==>
                  quintuplets[k].permanent == Nai(imsi)
                  && Ok(quintuplets[k].vector) == MakeVector(e, opc, rands(k), ProvisionedAmf, sqnStart + 32 * k)
    {
      var vector := MakeVector(e, opc, rands(i), ProvisionedAmf, sqnStart + 32 * i);
      if vector.Err? {
        return Err;
      }
      quintuplets := quintuplets + [Quintuplet(Nai(imsi), vector.value)];
      i := i + 1;
    }
    r := Ok(quintuplets);
  }

  // ---- Runs ---------------------------------------------------------------

  /** The network's next SQN, the vectors on their way in order, and the USIM. */
  datatype Link = Link(networkSqn: int, flight: seq<Vector>, simSqn: int, delivered: nat, accepted: nat)

  datatype Event = Issue(rand: Block) | Deliver | Lose

  function Step(e: Block -> Block, opc: Block, amf: seq<byte>, link: Link, event: Event): Link
    requires |amf| == 2
  {
    match event
    case Issue(rand) =>
      var v := MakeVector(e, opc, rand, amf, link.networkSqn);
      if v.Err? then link
      else link.(networkSqn := link.networkSqn + 32, flight := link.flight + [v.value])
    case Deliver =>
      if link.flight == [] then link
      else
        var v := link.flight[0];
        var got := link.(flight := link.flight[1..], delivered := link.delivered + 1);
        if Authenticate(e, opc, v.rand, v.autn, link.simSqn) == Ok(Some(v.answer))
        then got.(simSqn := link.simSqn + 1, accepted := link.accepted + 1)
        else got
    case Lose =>
      if link.flight == [] then link else link.(flight := link.flight[1..])
  }

  function After(e: Block -> Block, opc: Block, amf: seq<byte>, start: Link, events: seq<Event>): Link
    requires |amf| == 2
  {
    if events == [] then start
    else Step(e, opc, amf, After(e, opc, amf, start, events[..|events| - 1]), events[|events| - 1])
  }

  /** SQN of the vector at a place in the flight */
  function FlightSqn(link: Link, i: int): int {
    link.networkSqn - 32 * (|link.flight| - i)
  }

  /** The flight holds the last vectors issued, all of them ahead of the USIM. */
  ghost predicate Inv(e: Block -> Block, opc: Block, amf: seq<byte>, link: Link)
    requires |amf| == 2
  {
    && link.simSqn <= FlightSqn(link, 0)
    && link.accepted == link.delivered
    && forall i :: 0 <= i < |link.flight| ==>
         Ok(link.flight[i]) == MakeVector(e, opc, link.flight[i].rand, amf, FlightSqn(link, i))
  }

  lemma StepKeeps(e: Block -> Block, opc: Block, amf: seq<byte>, link: Link, event: Event)
    requires |amf| == 2 && Inv(e, opc, amf, link)
    ensures Inv(e, opc, amf, Step(e, opc, amf, link, event))
  {
    hide Authenticate, Autn, F234;
    if event.Deliver? && link.flight != [] {
      NextAccepted(e, opc, amf, link);
    }
  }

  lemma NextAccepted(e: Block -> Block, opc: Block, amf: seq<byte>, link: Link)
    requires |amf| == 2 && Inv(e, opc, amf, link) && link.flight != []
    ensures var v := link.flight[0];
            Authenticate(e, opc, v.rand, v.autn, link.simSqn) == Ok(Some(v.answer))
  {
    hide Authenticate, Autn, F234;
    VectorAuthenticates(e, opc, link.flight[0].rand, amf, FlightSqn(link, 0), link.simSqn);
  }

  lemma {:induction false} EveryRun(e: Block -> Block, opc: Block, amf: seq<byte>, networkSqn: int, simSqn: int, events: seq<Event>)
    requires |amf| == 2 && simSqn <= networkSqn
    ensures Inv(e, opc, amf, After(e, opc, amf, Link(networkSqn, [], simSqn, 0, 0), events))
  {
    hide Step;
    if events != [] {
      var before := events[..|events| - 1];
      EveryRun(e, opc, amf, networkSqn, simSqn, before);
      StepKeeps(e, opc, amf, After(e, opc, amf, Link(networkSqn, [], simSqn, 0, 0), before), events[|events| - 1]);
    }
  }

  /**
   * A USIM that starts no further than the network accepts every vector it is
   * delivered, whatever is lost, and the network issues until its SQN reaches 2^48.
   */
  lemma EveryDeliveryAccepted(e: Block -> Block, opc: Block, amf: seq<byte>, networkSqn: int, simSqn: int, events: seq<Event>)
    requires |amf| == 2 && simSqn <= networkSqn
    ensures var link := After(e, opc, amf, Link(networkSqn, [], simSqn, 0, 0), events);
            && link.accepted == link.delivered
            && link.simSqn == simSqn + link.accepted
            && (forall rand :: Step(e, opc, amf, link, Issue(rand)) == link <==> !SqnFits(link.networkSqn))
  {
    hide Authenticate, Autn, F234;
    var link := After(e, opc, amf, Link(networkSqn, [], simSqn, 0, 0), events);
    EveryRun(e, opc, amf, networkSqn, simSqn, events);
    SimSqnCounts(e, opc, amf, Link(networkSqn, [], simSqn, 0, 0), events);
  }

  lemma {:induction false} SimSqnCounts(e: Block -> Block, opc: Block, amf: seq<byte>, start: Link, events: seq<Event>)
    requires |amf| == 2
    ensures var link := After(e, opc, amf, start, events);
            link.simSqn - start.simSqn == link.accepted - start.accepted
  {
    hide MakeVector, Authenticate;
    if events != [] {
      SimSqnCounts(e, opc, amf, start, events[..|events| - 1]);
    }
  }
}
