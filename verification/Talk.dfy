/** The sessions' goroutines of one end, on the link they share. */
module Talks {
  import opened Bytes
  import opened Addresses
  import opened Demux
  import opened Frames
  import opened Links
  import opened MuxWrites

  /** A goroutine that copies a session's input to its writer: the frames this comes to, and whether the
      input fails in the end. */
  datatype Sender = Sender(id: uint16, frames: seq<Frame>, broken: bool)

  /** Where it stands: writing, with so many frames on the link; about to close its writer; or done, with
      the End frame on the link or not. */
  datatype Phase = Sending(sent: nat) | Ending(sent: nat, failed: bool) | Over(sent: nat, end: Option<bool>)

  ghost predicate Fit(p: Parser, a: Sender) {
    forall f :: f in a.frames ==> Encodable(p, f) && f.meta.id == a.id && f.meta.status != END
  }

  ghost predicate Able(p: Parser, a: Sender, ph: Phase) {
    Fit(p, a) && ph.sent <= |a.frames|
  }

  /** One step of the goroutine: a frame is offered to the link. A refusal ends the copy. */
  ghost function Act(p: Parser, a: Sender, ph: Phase, l: Link): (r: (Phase, Link))
    requires Able(p, a, ph)
    ensures Able(p, a, r.0)
  {
    match ph
    case Sending(j) =>
      if j == |a.frames| then (Ending(j, a.broken), l)
      else
        var (l1, err) := Emit(p, l, a.frames[j]);
        (if err == NoError then Sending(j + 1) else Ending(j, true), l1)
    case Ending(j, failed) =>
      var (l1, err) := Emit(p, l, EndFrame(a.id, failed));
      (Over(j, if err == NoError then Some(failed) else None), l1)
    case Over(_, _) => (ph, l)
  }

  ghost predicate Team(p: Parser, team: seq<Sender>) {
    && (forall k :: 0 <= k < |team| ==> Fit(p, team[k]))
    && forall k, l :: 0 <= k < l < |team| ==> team[k].id != team[l].id
  }

  ghost predicate Under(p: Parser, team: seq<Sender>, phs: seq<Phase>) {
    Team(p, team) && |phs| == |team| && forall k :: 0 <= k < |team| ==> Able(p, team[k], phs[k])
  }

  /** What happens next: a goroutine takes a step, or the loop of this end tells the other end that a
      session is over. */
  datatype Pick = Turn(k: nat) | Stray(id: uint16)

  /** They take steps in any order; one write on the shared link is one step. */
  ghost function Talk(p: Parser, team: seq<Sender>, phs: seq<Phase>, l: Link, picks: seq<Pick>): (r: (seq<Phase>, Link))
    requires Under(p, team, phs)
    ensures Under(p, team, r.0)
    decreases |picks|
  {
    if picks == [] then (phs, l)
    else
      match picks[0]
      case Stray(id) => Talk(p, team, phs, Emit(p, l, EndFrame(id, false)).0, picks[1..])
      case Turn(k) =>
        if k >= |team| then Talk(p, team, phs, l, picks[1..])
        else
          var (ph, l1) := Act(p, team[k], phs[k], l);
          Talk(p, team, phs[k := ph], l1, picks[1..])
  }

  predicate NoStrays(picks: seq<Pick>) {
    forall i :: 0 <= i < |picks| ==> picks[i].Turn?
  }

  // ---- Alone on the link, a goroutine makes its writes up to the first that fails, and closes ----

  function Turns(n: nat): seq<Pick> {
    seq(n, _ => Turn(0))
  }

  lemma {:induction false} SoloOver(p: Parser, a: Sender, ph: Phase, l: Link, n: nat)
    requires Able(p, a, ph) && ph.Over?
    ensures Talk(p, [a], [ph], l, Turns(n)).1 == l
    decreases n
  {
    if n > 0 {
      assert Turns(n)[0] == Turn(0) && Turns(n)[1..] == Turns(n - 1) && [ph][0 := ph] == [ph];
      SoloOver(p, a, ph, l, n - 1);
    }
  }

  lemma SoloStep(p: Parser, a: Sender, ph: Phase, l: Link, n: nat)
    requires Able(p, a, ph) && n > 0
    ensures var (ph1, l1) := Act(p, a, ph, l);
            Able(p, a, ph1) && Talk(p, [a], [ph], l, Turns(n)) == Talk(p, [a], [ph1], l1, Turns(n - 1))
  {
    hide Act, Fit;
    var (ph1, l1) := Act(p, a, ph, l);
    assert Turns(n)[0] == Turn(0) && Turns(n)[1..] == Turns(n - 1) && [ph][0 := ph1] == [ph1];
  }

  lemma SoloEnds(p: Parser, a: Sender, ph: Phase, l: Link, n: nat)
    requires Able(p, a, ph) && ph.Ending? && n > 0
    ensures Talk(p, [a], [ph], l, Turns(n)).1 == Emit(p, l, EndFrame(a.id, ph.failed)).0
  {
    SoloStep(p, a, ph, l, n);
    var (ph1, l1) := Act(p, a, ph, l);
    SoloOver(p, a, ph1, l1, n - 1);
  }

  lemma {:induction false} SoloSends(p: Parser, a: Sender, j: nat, l: Link, n: nat)
    requires Able(p, a, Sending(j)) && n >= |a.frames| - j + 2
    ensures Offerable(a.frames[j..])
    ensures var (l1, err) := EmitAll(p, l, a.frames[j..]);
            Talk(p, [a], [Sending(j)], l, Turns(n)).1 == Emit(p, l1, EndFrame(a.id, a.broken || err != NoError)).0
    decreases |a.frames| - j
  {
    hide Emit, Talk;
    SoloStep(p, a, Sending(j), l, n);
    var (ph1, l1) := Act(p, a, Sending(j), l);
    var fs := a.frames[j..];
    if fs == [] || ph1.Ending? {
      SoloEnds(p, a, ph1, l1, n - 1);
    } else {
      assert fs[1..] == a.frames[j + 1..];
      SoloSends(p, a, j + 1, l1, n - 1);
    }
  }

  /** So fetchInput and handle are goroutines of this kind. */
  lemma SoloIsFetchInput(p: Parser, w: Writer, ws: seq<seq<Bytes>>, broken: bool, l: Link, n: nat)
    requires Usable(w) && Writes(w.packets, ws)
    requires var a := Sender(w.id, AllFrames(w, ws), broken); Fit(p, a) && n >= |a.frames| + 2
    ensures var a := Sender(w.id, AllFrames(w, ws), broken);
            Talk(p, [a], [Sending(0)], l, Turns(n)).1 == FetchInput(p, w, l, ws, broken)
  {
    hide EmitAll, Talk, Fit, AllFrames;
    var a := Sender(w.id, AllFrames(w, ws), broken);
    SoloSends(p, a, 0, l, n);
    WriteAllEmits(p, w, l, ws);
    assert a.frames[0..] == a.frames;
  }

  // ---- Together, they put an interleaving of their frames on it ----

  function Closing(a: Sender, ph: Phase): seq<Frame> {
    if ph.Over? && ph.end.Some? then [EndFrame(a.id, ph.end.value)] else []
  }

  /** What a goroutine has put on the link. */
  function Said(a: Sender, ph: Phase): seq<Frame>
    requires ph.sent <= |a.frames|
  {
    a.frames[..ph.sent] + Closing(a, ph)
  }

  /** The frames of a session but for End frames. */
  function Talked(h: seq<Frame>, id: uint16): seq<Frame>
    decreases |h|
  {
    if h == [] then []
    else Talked(h[..|h| - 1], id) +
         if h[|h| - 1].meta.id == id && h[|h| - 1].meta.status != END then [h[|h| - 1]] else []
  }

  ghost predicate IsEnd(f: Frame) {
    exists failed :: f == EndFrame(f.meta.id, failed)
  }

  ghost predicate Known(team: seq<Sender>, id: uint16) {
    exists k :: 0 <= k < |team| && team[k].id == id
  }

  /** The frames h went to the link since it was l0: of each session's a front part, in order; End frames;
      and no others. If there are no strays, the End frames are the sessions' own, and come last. */
  ghost predicate Spread(p: Parser, team: seq<Sender>, phs: seq<Phase>, h: seq<Frame>, strays: bool,
                         l0: Link, l: Link)
  {
    && Under(p, team, phs) && AllEncodable(p, h) && l.writes == l0.writes + Framed(p, h)
    && (forall k :: 0 <= k < |team| ==>
          && Talked(h, team[k].id) == team[k].frames[..phs[k].sent]
          && (!strays ==> Select(h, team[k].id) == Said(team[k], phs[k])))
    && forall i :: 0 <= i < |h| ==>
         (h[i].meta.status == END ==> IsEnd(h[i])) && (h[i].meta.status != END || !strays ==> Known(team, h[i].meta.id))
  }

  lemma Snoc(h: seq<Frame>, f: Frame, id: uint16)
    ensures Select(h + [f], id) == Select(h, id) + if f.meta.id == id then [f] else []
    ensures Talked(h + [f], id) == Talked(h, id) + if f.meta.id == id && f.meta.status != END then [f] else []
  {
    assert (h + [f])[..|h|] == h;
  }

  lemma FramedSnoc(p: Parser, h: seq<Frame>, f: Frame)
    requires AllEncodable(p, h) && Encodable(p, f)
    ensures AllEncodable(p, h + [f]) && Framed(p, h + [f]) == Framed(p, h) + [MuxWrites.Buffers(p, f)]
  {
    hide Encodable, MuxWrites.Buffers;
  }

  lemma EmitTakes(p: Parser, l: Link, f: Frame)
    requires Encodable(p, f)
    ensures var (l1, err) := Emit(p, l, f);
            l1.writes == l.writes + if err == NoError then [MuxWrites.Buffers(p, f)] else []
  {
    assert l.writes + [] == l.writes;
  }

  lemma EndEncodable(p: Parser, id: uint16, failed: bool)
    ensures Encodable(p, EndFrame(id, failed))
  {
  }

  /** The frame that a step puts on the link, if any, is the goroutine's next. */
  lemma ActSays(p: Parser, a: Sender, ph: Phase, l: Link) returns (f: Option<Frame>)
    requires Able(p, a, ph)
    ensures var (ph1, l1) := Act(p, a, ph, l);
            && Said(a, ph1) == Said(a, ph) + (if f.Some? then [f.value] else [])
            && a.frames[..ph1.sent] ==
                 a.frames[..ph.sent] + (if f.Some? && f.value.meta.status != END then [f.value] else [])
            && (f.Some? ==>
                  Encodable(p, f.value) && f.value.meta.id == a.id && (f.value.meta.status == END ==> IsEnd(f.value)))
            && l1.writes == l.writes + if f.Some? then [MuxWrites.Buffers(p, f.value)] else []
  {
    hide Encodable, MuxWrites.Buffers, Emit;
    var (ph1, l1) := Act(p, a, ph, l);
    f := None;
    match ph
    case Sending(j) =>
      if j < |a.frames| {
        EmitTakes(p, l, a.frames[j]);
        if ph1.Sending? {
          f := Some(a.frames[j]);
          assert a.frames[..j + 1] == a.frames[..j] + [a.frames[j]];
        }
      }
    case Ending(j, failed) =>
      EndEncodable(p, a.id, failed);
      EmitTakes(p, l, EndFrame(a.id, failed));
      if ph1.end.Some? { f := Some(EndFrame(a.id, failed)); }
    case Over(_, _) =>
  }

  lemma TurnSpreads(p: Parser, team: seq<Sender>, phs: seq<Phase>, h: seq<Frame>, strays: bool, l0: Link, l: Link,
                    k: nat)
    returns (h': seq<Frame>)
    requires Spread(p, team, phs, h, strays, l0, l) && k < |team|
    ensures var (ph, l1) := Act(p, team[k], phs[k], l);
            Spread(p, team, phs[k := ph], h', strays, l0, l1)
  {
    hide Act, Encodable, MuxWrites.Buffers, Framed, Select, Talked;
    var (ph, l1) := Act(p, team[k], phs[k], l);
    var f := ActSays(p, team[k], phs[k], l);
    h' := h;
    if f.Some? {
      h' := h + [f.value];
      FramedSnoc(p, h, f.value);
      forall m | 0 <= m < |team|
        ensures Talked(h', team[m].id) == team[m].frames[..phs[k := ph][m].sent]
        ensures !strays ==> Select(h', team[m].id) == Said(team[m], phs[k := ph][m])
      {
        Snoc(h, f.value, team[m].id);
        SaidNothing(team[m], phs[m]);
      }
    } else {
      SaidNothing(team[k], phs[k]);
    }
  }

  lemma SaidNothing(a: Sender, ph: Phase)
    requires ph.sent <= |a.frames|
    ensures Said(a, ph) + [] == Said(a, ph) && a.frames[..ph.sent] + [] == a.frames[..ph.sent]
  {
  }

  lemma StraySpreads(p: Parser, team: seq<Sender>, phs: seq<Phase>, h: seq<Frame>, l0: Link, l: Link, id: uint16)
    returns (h': seq<Frame>)
    requires Spread(p, team, phs, h, true, l0, l)
    ensures Spread(p, team, phs, h', true, l0, Emit(p, l, EndFrame(id, false)).0)
  {
    hide Encodable, MuxWrites.Buffers, Framed, Select, Talked, Emit;
    EndEncodable(p, id, false);
    EmitTakes(p, l, EndFrame(id, false));
    h' := h;
    if Emit(p, l, EndFrame(id, false)).1 == NoError {
      h' := h + [EndFrame(id, false)];
      FramedSnoc(p, h, EndFrame(id, false));
      forall m | 0 <= m < |team| ensures Talked(h', team[m].id) == team[m].frames[..phs[m].sent] {
        Snoc(h, EndFrame(id, false), team[m].id);
        SaidNothing(team[m], phs[m]);
      }
    }
  }

  /** Whatever the schedule and whatever the link refuses, what it has taken is an interleaving of the
      sessions' frames: of each a front part, in order, and perhaps its End frame. */
  lemma {:induction false} TalkSpreads(p: Parser, team: seq<Sender>, phs: seq<Phase>, h: seq<Frame>, strays: bool,
                                       l0: Link, l: Link, picks: seq<Pick>)
    returns (h': seq<Frame>)
    requires Spread(p, team, phs, h, strays, l0, l) && (strays || NoStrays(picks))
    ensures var (phs', l') := Talk(p, team, phs, l, picks);
            Spread(p, team, phs', h', strays, l0, l')
    decreases |picks|
  {
    hide Act, Framed, Select, Talked, Emit;
    h' := h;
    if picks != [] {
      match picks[0]
      case Stray(id) =>
        h' := StraySpreads(p, team, phs, h, l0, l, id);
        h' := TalkSpreads(p, team, phs, h', strays, l0, Emit(p, l, EndFrame(id, false)).0, picks[1..]);
      case Turn(k) =>
        if k >= |team| {
          h' := TalkSpreads(p, team, phs, h, strays, l0, l, picks[1..]);
        } else {
          var (ph, l1) := Act(p, team[k], phs[k], l);
          h' := TurnSpreads(p, team, phs, h, strays, l0, l, k);
          h' := TalkSpreads(p, team, phs[k := ph], h', strays, l0, l1, picks[1..]);
        }
    }
  }

  function Waiting(team: seq<Sender>): seq<Phase> {
    seq(|team|, _ => Sending(0))
  }

  lemma NothingSpread(p: Parser, team: seq<Sender>, strays: bool, l: Link)
    requires Team(p, team)
    ensures Spread(p, team, Waiting(team), [], strays, l, l)
  {
    hide Fit;
    assert Framed(p, []) == [] && l.writes + [] == l.writes;
  }

  /** What the goroutines come to on a new link. */
  ghost function Outcome(p: Parser, team: seq<Sender>, refuses: nat -> bool, picks: seq<Pick>): (r: (seq<Phase>, Link))
    requires Team(p, team)
    ensures Under(p, team, r.0)
  {
    NothingSpread(p, team, true, Link([], 0, false, refuses));
    Talk(p, team, Waiting(team), Link([], 0, false, refuses), picks)
  }
}
