/**
 * A run in which two walks are at the server at once, the later one is answered first
 * and fails, and its fid is given back and handed out again while the other goes on.
 */
module ClientOverlap {
  import opened Basics
  import opened Server
  import opened ServerSync
  import opened ServerHangup
  import opened ServerFids
  import opened ClientFids
  import opened ClientRuns

  const ROOTFID: Fid := Fid(2, -1, Qid(true, 0), 0)

  function Greeting(): seq<Sent> {
    [Sent(0, NOTAG, RVersion(8192, "9P2000")), Sent(1, 0, ROk)]
  }

  /** The server as the mount leaves it. */
  function Srv0(): Conn {
    Conn(AllHandlers(), true, false, true, 2, 0, map[], map[1 := ROOTFID], map[], [], 3, 8192, 8192, Greeting())
  }

  function First(): Req {
    Req(0, Walk(1, 2, 1), Some(FidRef(1, 2)), Some(FidRef(2, 4)))
  }

  function Second(): Req {
    Req(1, Walk(1, 3, 1), Some(FidRef(1, 2)), Some(FidRef(3, 6)))
  }

  /** With the first walk, and with both. */
  function Srv1(): Conn {
    Srv0().(ref := 4, next := 5, tagmap := map[0 := 3], live := map[3 := First()],
            fidmap := map[1 := ROOTFID, 2 := Fid(4, -1, Qid(false, 0), 0)])
  }

  function Srv2(): Conn {
    Srv0().(ref := 6, next := 7, tagmap := map[0 := 3, 1 := 5], live := map[3 := First(), 5 := Second()],
            fidmap := map[1 := ROOTFID, 2 := Fid(4, -1, Qid(false, 0), 0), 3 := Fid(6, -1, Qid(false, 0), 0)])
  }

  const FAILED: Sent := Sent(5, 1, RError(Enofile))
  const WALKED: Sent := Sent(3, 0, RWalk(1))

  /** With the second answered, and with both. */
  function Srv3(): Conn {
    Srv1().(next := 7, out := Greeting() + [FAILED])
  }

  function Srv4(): Conn {
    Srv0().(ref := 3, next := 7, fidmap := map[1 := ROOTFID, 2 := Fid(4, -1, Qid(false, 9), 0)], out := Greeting() + [FAILED, WALKED])
  }

  function NotFound(): Answer {
    Answer(None, 0, Qid(false, 0))
  }

  function Found(): Answer {
    Answer(None, 1, Qid(false, 9))
  }

  lemma Mounts()
    ensures Mounted(AllHandlers(), Done(), Qid(true, 0)) == Some(World(Pool(1, [], {}), map[], map[], 0, [], Srv0(), map[], 2, true))
  {
    hide ServerSync.Serve, Greeted;
    Greets();
    Attaches();
    assert Srv0().fidmap == map[1 := Fid(2, -1, Qid(false, 0), 0)][1 := ROOTFID];
  }

  function Greeted(): Conn {
    Initial(AllHandlers()).(wired := true, next := 1, rsize := 8192, wsize := 8192, out := [Sent(0, NOTAG, RVersion(8192, "9P2000"))])
  }

  lemma Greets()
    ensures ServerSync.Serve(Initial(AllHandlers()), NOTAG, Version(MAX_MSG, "9P2000"), Done()) == Some(Greeted())
  {
    var d := ServerSync.Serve(Initial(AllHandlers()), NOTAG, Version(MAX_MSG, "9P2000"), Done()).value;
    assert d.live == Greeted().live && d.tagmap == Greeted().tagmap;
    assert d.fidmap == Greeted().fidmap;
    assert d.out == Greeted().out;
    assert d == Greeted();
  }

  lemma Attaches()
    ensures ServerSync.Serve(Greeted(), 0, Attach(1), Done()) == Some(Srv0().(fidmap := map[1 := Fid(2, -1, Qid(false, 0), 0)]))
  {
    var d := ServerSync.Serve(Greeted(), 0, Attach(1), Done()).value;
    assert d.live == Srv0().(fidmap := map[1 := Fid(2, -1, Qid(false, 0), 0)]).live && d.tagmap == Srv0().(fidmap := map[1 := Fid(2, -1, Qid(false, 0), 0)]).tagmap;
    assert d.fidmap == Srv0().(fidmap := map[1 := Fid(2, -1, Qid(false, 0), 0)]).fidmap;
    assert d.out == Srv0().(fidmap := map[1 := Fid(2, -1, Qid(false, 0), 0)]).out;
    assert d == Srv0().(fidmap := map[1 := Fid(2, -1, Qid(false, 0), 0)]);
  }

  lemma FirstArrives()
    ensures Receive(Srv0(), 0, Walk(1, 2, 1)) == Some(Handled(Srv1(), true))
  {
    var d := Receive(Srv0(), 0, Walk(1, 2, 1)).value.c;
    assert d.live == Srv1().live && d.tagmap == Srv1().tagmap;
    assert d.fidmap == Srv1().fidmap;
    assert d.out == Srv1().out;
    assert d == Srv1();
  }

  lemma SecondArrives()
    ensures Receive(Srv1(), 1, Walk(1, 3, 1)) == Some(Handled(Srv2(), true))
  {
    var d := Receive(Srv1(), 1, Walk(1, 3, 1)).value.c;
    assert d.live == Srv2().live && d.tagmap == Srv2().tagmap;
    assert d.fidmap == Srv2().fidmap;
    assert d.out == Srv2().out;
    assert d == Srv2();
  }

  lemma SecondFails()
    ensures Respond(Srv2(), 5, NotFound(), {}) == Some(Srv3())
  {
    var d := Respond(Srv2(), 5, NotFound(), {}).value;
    assert d.live == Srv3().live && d.tagmap == Srv3().tagmap;
    assert d.fidmap == Srv3().fidmap;
    assert d.out == Srv3().out;
    assert d == Srv3();
  }

  lemma FirstSucceeds()
    ensures Respond(Srv3(), 3, Found(), {}) == Some(Srv4())
  {
    var d := Respond(Srv3(), 3, Found(), {}).value;
    assert d.live == Srv4().live && d.tagmap == Srv4().tagmap;
    assert d.fidmap == Srv4().fidmap;
    assert d.out == Srv4().out;
    assert d == Srv4();
  }

  // ---- The run ----

  ghost predicate Goes(w: World, s: Step, v: World) {
    Can(w, s) && Next(w, s) == v
  }

  function W0(): World { World(Pool(1, [], {}), map[], map[], 0, [], Srv0(), map[], 2, true) }
  function W1(): World { W0().(pool := Pool(2, [], {2}), phase := map[2 := Fresh]) }
  function W2(): World { W0().(pool := Pool(3, [], {2, 3}), phase := map[2 := Fresh, 3 := Fresh]) }

  function W3(): World {
    W2().(phase := map[2 := Walking(0), 3 := Fresh], calls := map[0 := Call(Walk(1, 2, 1), 0, OnWire)], next := 1,
          wire := [Packet(0, 0, Walk(1, 2, 1))])
  }

  function W4(): World {
    W3().(phase := map[2 := Walking(0), 3 := Walking(1)],
          calls := map[0 := Call(Walk(1, 2, 1), 0, OnWire), 1 := Call(Walk(1, 3, 1), 1, OnWire)], next := 2,
          wire := [Packet(0, 0, Walk(1, 2, 1)), Packet(1, 1, Walk(1, 3, 1))])
  }

  function W5(): World {
    W4().(calls := map[0 := Call(Walk(1, 2, 1), 0, AtServer(3)), 1 := Call(Walk(1, 3, 1), 1, OnWire)],
          wire := [Packet(1, 1, Walk(1, 3, 1))], srv := Srv1(), owner := map[3 := 0])
  }

  function W6(): World {
    W5().(calls := map[0 := Call(Walk(1, 2, 1), 0, AtServer(3)), 1 := Call(Walk(1, 3, 1), 1, AtServer(5))],
          wire := [], srv := Srv2(), owner := map[3 := 0, 5 := 1])
  }

  function W7(): World { W6().(srv := Srv3()) }

  function W8(): World {
    W7().(calls := map[0 := Call(Walk(1, 2, 1), 0, AtServer(3)), 1 := Call(Walk(1, 3, 1), 1, Replied(RError(Enofile)))], read := 3)
  }

  function W9(): World {
    W8().(calls := map[0 := Call(Walk(1, 2, 1), 0, AtServer(3))], phase := map[2 := Walking(0), 3 := Ended])
  }

  function W10(): World { W9().(pool := Pool(2, [], {2}), phase := map[2 := Walking(0)]) }
  function W11(): World { W10().(pool := Pool(3, [], {2, 3}), phase := map[2 := Walking(0), 3 := Fresh]) }
  function W12(): World { W11().(srv := Srv4()) }
  function W13(): World { W12().(calls := map[0 := Call(Walk(1, 2, 1), 0, Replied(RWalk(1)))], read := 4) }
  function W14(): World { W13().(calls := map[], phase := map[2 := Walked, 3 := Fresh]) }

  lemma ClientSteps()
    ensures Goes(W0(), Get, W1()) && Goes(W1(), Get, W2())
    ensures Goes(W2(), SendWalk(2, 1, 0), W3()) && Goes(W3(), SendWalk(3, 1, 1), W4())
  {
    hide Srv0;
  }

  lemma FirstDelivered()
    ensures Goes(W4(), Deliver, W5())
  {
    hide Receive;
    FirstArrives();
    assert W4().wire[1..] == W5().wire;
  }

  lemma SecondDelivered()
    ensures Goes(W5(), Deliver, W6())
  {
    hide Receive;
    SecondArrives();
    assert W5().wire[1..] == [];
  }

  lemma SecondAnswered()
    ensures Goes(W6(), Step.Serve(Answered(5, NotFound())), W7())
  {
    hide Respond;
    SecondFails();
  }

  lemma SecondDispatched()
    ensures Goes(W7(), Dispatch(1), W8())
  {
    hide Next;
    assert W7().srv.out[2] == FAILED && W7().read == 2;
    DispatchIs(W7(), 1);
    assert W7().calls[1 := W7().calls[1].(stage := Replied(RError(Enofile)))] == W8().calls;
  }

  lemma DispatchIs(w: World, k: nat)
    requires Can(w, Dispatch(k))
    ensures Next(w, Dispatch(k)) ==
      w.(calls := w.calls[k := w.calls[k].(stage := Replied(w.srv.out[w.read].reply))], read := w.read + 1)
  {
  }

  /** A walk comes back. */
  lemma ReturnIs(w: World, k: nat, calls: map<nat, Call>, phase: map<nat, Phase>)
    requires k in w.calls && w.calls[k].stage.Replied? && w.calls[k].msg.Walk? && calls == w.calls - {k}
    requires phase == w.phase[w.calls[k].msg.newfid := if WalkDone(w.calls[k].msg, w.calls[k].stage.reply) then Walked else Phase.Ended]
    ensures Goes(w, Return(k), w.(calls := calls, phase := phase))
  {
  }

  lemma SecondReturned()
    ensures Goes(W8(), Return(1), W9())
  {
    hide Srv3, Goes;
    ReturnIs(W8(), 1, W9().calls, W9().phase);
  }

  lemma FidAgain()
    ensures Goes(W9(), Put(3), W10()) && Goes(W10(), Get, W11())
  {
    hide Srv3;
    assert W9().phase - {3} == W10().phase;
    assert W9().pool.used - {3} == {2};
  }

  lemma FirstAnswered()
    ensures Goes(W11(), Step.Serve(Answered(3, Found())), W12())
  {
    hide Respond;
    FirstSucceeds();
  }

  lemma FirstDispatched()
    ensures Goes(W12(), Dispatch(0), W13())
  {
    hide Next;
    assert W12().srv.out[3] == WALKED && W12().read == 3;
    DispatchIs(W12(), 0);
    assert W12().calls[0 := W12().calls[0].(stage := Replied(RWalk(1)))] == W13().calls;
  }

  lemma FirstReturned()
    ensures Goes(W13(), Return(0), W14())
  {
    hide Srv4, Goes;
    assert W13().calls - {0} == map[];
    ReturnIs(W13(), 0, W14().calls, W14().phase);
  }

  lemma Seen()
    ensures W6().srv.live.Keys == {3, 5} && W6().calls.Keys == {0, 1}
    ensures W14().phase == map[2 := Walked, 3 := Fresh] && W14().calls == map[]
    ensures W0() == World(Pool(1, [], {}), map[], map[], 0, [], Srv0(), map[], 2, true)
  {
  }

  /**
   * It is a run from a mount: after six steps both walks are with their handlers; in the
   * end the first fid may be used, and the second, whose walk failed, is someone else's.
   */
  lemma Overlap() returns (ws: seq<World>, steps: seq<Step>)
    ensures IsRun(ws, steps) && |steps| == 14 && Mounted(AllHandlers(), Done(), Qid(true, 0)) == Some(ws[0])
    ensures ws[6].srv.live.Keys == {3, 5} && ws[6].calls.Keys == {0, 1}
    ensures ws[14].phase == map[2 := Walked, 3 := Fresh] && ws[14].calls == map[]
  {
    hide W0, W1, W2, W3, W4, W5, W6, W7, W8, W9, W10, W11, W12, W13, W14, Goes, IsRun, Mounted, Srv0;
    ws := [W0(), W1(), W2(), W3(), W4(), W5(), W6(), W7(), W8(), W9(), W10(), W11(), W12(), W13(), W14()];
    steps := [Get, Get, SendWalk(2, 1, 0), SendWalk(3, 1, 1), Deliver, Deliver, Step.Serve(Answered(5, NotFound())), Dispatch(1),
              Return(1), Put(3), Get, Step.Serve(Answered(3, Found())), Dispatch(0), Return(0)];
    Mounts();
    ClientSteps();
    FirstDelivered();
    SecondDelivered();
    SecondAnswered();
    SecondDispatched();
    SecondReturned();
    FidAgain();
    FirstAnswered();
    FirstDispatched();
    FirstReturned();
    Seen();
    AllGo(ws, steps);
  }

  lemma AllGo(ws: seq<World>, steps: seq<Step>)
    requires |ws| == |steps| + 1 && |steps| == 14
    requires Goes(ws[0], steps[0], ws[1]) && Goes(ws[1], steps[1], ws[2]) && Goes(ws[2], steps[2], ws[3])
    requires Goes(ws[3], steps[3], ws[4]) && Goes(ws[4], steps[4], ws[5]) && Goes(ws[5], steps[5], ws[6])
    requires Goes(ws[6], steps[6], ws[7]) && Goes(ws[7], steps[7], ws[8]) && Goes(ws[8], steps[8], ws[9])
    requires Goes(ws[9], steps[9], ws[10]) && Goes(ws[10], steps[10], ws[11]) && Goes(ws[11], steps[11], ws[12])
    requires Goes(ws[12], steps[12], ws[13]) && Goes(ws[13], steps[13], ws[14])
    ensures IsRun(ws, steps)
  {
    hide Can, Next;
  }
}
