/** fetchInput of common/mux/client.go: from a session's input to its writer. */
module MuxInputs {
  import opened Bytes
  import opened MultiBuffers
  import opened MuxWriters
  import opened Readers
  import Addresses
  import Links
  import MuxWrites
  import Notices

  // ---- On values: `segs` is what the input hands out, and `end` its last error ----

  /** buf.Copy writes only lists with content. */
  function Passed(segs: seq<seq<Bytes>>): seq<seq<Bytes>> {
    if segs == [] then []
    else (if Flat(segs[0]) != [] then [segs[0]] else []) + Passed(segs[1..])
  }

  /** What the writer is given: for the first payload an empty write if nothing came in time, or else the
      first list whatever is in it; then what is copied. */
  function Given(silent: bool, segs: seq<seq<Bytes>>): seq<seq<Bytes>> {
    if silent then [[]] + Passed(segs)
    else if segs == [] then []
    else [segs[0]] + Passed(segs[1..])
  }

  /** Nothing of the input is lost on the way to the writer, or added, or split up otherwise: the lists with
      content are given as they are, in order. And something is given at all unless the input is at its end
      from the start, so that the session is announced. */
  lemma GivenCarriesAll(silent: bool, segs: seq<seq<Bytes>>)
    ensures FlatAll(Given(silent, segs)) == FlatAll(segs)
    ensures NonEmptyAll(Given(silent, segs)) == NonEmptyAll(segs)
    ensures Given(silent, segs) == [] <==> !silent && segs == []
  {
    PassedCarriesAll(segs);
    if silent {
      assert ([[]] + Passed(segs))[1..] == Passed(segs);
      assert [] + FlatAll(Passed(segs)) == FlatAll(Passed(segs));
      assert [] + NonEmptyAll(Passed(segs)) == NonEmptyAll(Passed(segs));
    } else if segs != [] {
      PassedCarriesAll(segs[1..]);
      assert ([segs[0]] + Passed(segs[1..]))[1..] == Passed(segs[1..]);
    }
  }

  lemma {:induction false} PassedCarriesAll(segs: seq<seq<Bytes>>)
    ensures FlatAll(Passed(segs)) == FlatAll(segs) && NonEmptyAll(Passed(segs)) == NonEmptyAll(segs)
    ensures forall i :: 0 <= i < |Passed(segs)| ==> Flat(Passed(segs)[i]) != []
  {
    if segs != [] {
      PassedCarriesAll(segs[1..]);
      if Flat(segs[0]) == [] {
        NonEmptyNothing(segs[0]);
        assert [] + Passed(segs[1..]) == Passed(segs[1..]);
      } else {
        assert ([segs[0]] + Passed(segs[1..]))[1..] == Passed(segs[1..]);
      }
    }
  }

  /** The input fails: an end in place of the first payload is a failure too. */
  function Broken(silent: bool, segs: seq<seq<Bytes>>, end: Error): bool {
    end != EOF || (!silent && segs == [])
  }

  lemma {:induction false} PassedWrites(packets: bool, segs: seq<seq<Bytes>>)
    requires Small(segs)
    ensures MuxWrites.Writes(packets, Passed(segs))
  {
    if segs != [] {
      assert forall i, j :: 0 <= i < |segs[1..]| && 0 <= j < |segs[1..][i]| ==> segs[1..][i][j] == segs[i + 1][j];
      PassedWrites(packets, segs[1..]);
    }
  }

  lemma GivenWrites(packets: bool, silent: bool, segs: seq<seq<Bytes>>)
    requires Small(segs)
    ensures MuxWrites.Writes(packets, Given(silent, segs))
  {
    PassedWrites(packets, segs);
    if segs != [] {
      assert forall i, j :: 0 <= i < |segs[1..]| && 0 <= j < |segs[1..][i]| ==> segs[1..][i][j] == segs[i + 1][j];
      PassedWrites(packets, segs[1..]);
    }
  }

  // ---- On the heap ----

  /** writeFirstPayload: `silent` says that nothing came within the time allowed. */
  method WriteFirstPayload(input: Source, w: MuxWriter, silent: bool) returns (err: Error)
    requires input.Valid() && MuxWrites.Usable(w.Model())
    modifies input, w, w.writer
    ensures input.Valid()
    ensures if !silent && old(input.segs) == []
            then err == input.end && w.Model() == old(w.Model()) && w.writer.Model() == old(w.writer.Model())
            else
              var ps := if silent then [] else old(input.segs)[0];
              && MuxWrites.Splittable(w.packets, ps)
              && input.segs == (if silent then old(input.segs) else old(input.segs)[1..])
              && var (w1, l, e) := MuxWrites.Write(w.p, old(w.Model()), old(w.writer.Model()), ps);
                 w.Model() == w1 && w.writer.Model() == l && (err == NoError <==> e == NoError)
  {
    hide Payloads, MuxWrites.Write;
    var mb: MultiBuffer := [];
    if silent {
      Nothing(mb);
    } else {
      mb, err := input.ReadMultiBuffer();
      if err != NoError {
        return;
      }
    }
    err := w.WriteMultiBuffer(mb);
  }

  lemma Nothing(mb: MultiBuffer)
    requires mb == []
    ensures Owned(mb) && Payloads(mb) == []
  {
  }

  /** buf.Copy from the input to the writer. */
  method CopyInput(input: Source, w: MuxWriter) returns (err: Error)
    requires input.Valid() && MuxWrites.Usable(w.Model())
    modifies input, w, w.writer
    ensures MuxWrites.Writes(w.packets, Passed(old(input.segs)))
    ensures var (w1, l, e) := MuxWrites.WriteAll(w.p, old(w.Model()), old(w.writer.Model()), Passed(old(input.segs)));
            && w.Model() == w1 && w.writer.Model() == l
            && (err == NoError <==> e == NoError && input.end == EOF)
  {
    hide Payloads, Flat, MuxWrites.Write, MuxWrites.Writes, MuxWrites.Usable, MuxWrites.Splittable;
    PassedWrites(w.packets, input.segs);
    ghost var result := MuxWrites.WriteAll(w.p, w.Model(), w.writer.Model(), Passed(input.segs));
    while true
      invariant input.Valid() && MuxWrites.Usable(w.Model()) && MuxWrites.Writes(w.packets, Passed(input.segs))
      invariant MuxWrites.WriteAll(w.p, w.Model(), w.writer.Model(), Passed(input.segs)) == result
      decreases |input.segs|
    {
      ghost var segs, before, link := input.segs, w.Model(), w.writer.Model();
      var mb, rerr := input.ReadMultiBuffer();
      label Read:
      var empty := IsEmpty(mb);
      Kept@Read(mb);
      if rerr != NoError {
        return if rerr == EOF then NoError else rerr;
      }
      PassedWrites(w.packets, segs[1..]);
      if !empty {
        WriteAllStep(w.p, before, link, segs);
        err := w.WriteMultiBuffer(mb);
        if err != NoError {
          return;
        }
      } else {
        assert [] + Passed(segs[1..]) == Passed(segs[1..]);
      }
    }
  }

  lemma WriteAllStep(p: Addresses.Parser, w: MuxWrites.Writer, l: Links.Link, segs: seq<seq<Bytes>>)
    requires MuxWrites.Usable(w) && segs != [] && Flat(segs[0]) != [] && Small(segs)
    ensures MuxWrites.Writes(w.packets, Passed(segs)) && MuxWrites.Splittable(w.packets, segs[0])
    ensures MuxWrites.Writes(w.packets, Passed(segs[1..]))
    ensures var (w1, l1, err) := MuxWrites.Write(p, w, l, segs[0]);
            && w1 == w.(followup := true) && MuxWrites.Usable(w1)
            && MuxWrites.WriteAll(p, w, l, Passed(segs)) ==
                 if err != NoError then (w1, l1, err) else MuxWrites.WriteAll(p, w1, l1, Passed(segs[1..]))
  {
    PassedWrites(w.packets, segs);
    assert Passed(segs)[0] == segs[0] && Passed(segs)[1..] == Passed(segs[1..]);
    MuxWrites.WriteKeeps(p, w, l, segs[0]);
  }

  /** The writes and the Close come to what they should. */
  lemma FetchEnds(p: Addresses.Parser, w: MuxWrites.Writer, l: Links.Link, silent: bool, segs: seq<seq<Bytes>>,
                  end: Error)
    requires MuxWrites.Usable(w) && Small(segs)
    ensures MuxWrites.Writes(w.packets, Given(silent, segs))
    ensures var ws, broken := Given(silent, segs), Broken(silent, segs, end);
            var l' := MuxWrites.FetchInput(p, w, l, ws, broken);
            var failed := Failing(p, w, l, l', silent, segs, end);
            && Notices.Ended(l, l', w.id, failed)
            && (failed <==> broken || MuxWrites.WriteAll(p, w, l, ws).2 != NoError)
  {
    hide MuxWrites.WriteAll, MuxWrites.CloseWriter, Notices.Ended, Notices.Refusal, MuxWrites.Usable;
    GivenWrites(w.packets, silent, segs);
    Notices.WriterEnds(p, w, l, Given(silent, segs), Broken(silent, segs, end));
  }

  /** The link went from l to l', with the frame that ends the session last: the input failed, or ended in
      place of the first payload; a write before was refused; or the session could not be announced. */
  ghost predicate Failing(p: Addresses.Parser, w: MuxWrites.Writer, l: Links.Link, l': Links.Link,
                          silent: bool, segs: seq<seq<Bytes>>, end: Error)
    requires MuxWrites.Usable(w)
  {
    || end != EOF || (!silent && segs == [])
    || Notices.Refusal(l, l.calls, l'.calls - 1) || !Notices.Announceable(p, w)
  }

  /** fetchInput: the first payload, the copy, and the Close of the writer, with the error option if anything
      failed. */
  method FetchInput(input: Source, w: MuxWriter, silent: bool) returns (failed: bool)
    requires input.Valid() && MuxWrites.Usable(w.Model()) && !w.hasError
    modifies input, w, w.writer
    ensures MuxWrites.Writes(w.packets, Given(silent, old(input.segs)))
    ensures var ws, broken := Given(silent, old(input.segs)), Broken(silent, old(input.segs), input.end);
            w.writer.Model() == MuxWrites.FetchInput(w.p, old(w.Model()), old(w.writer.Model()), ws, broken)
    ensures failed <==> Failing(w.p, old(w.Model()), old(w.writer.Model()), w.writer.Model(), silent,
                                old(input.segs), input.end)
    ensures Notices.Ended(old(w.writer.Model()), w.writer.Model(), w.id, failed)
  {
    GivenWrites(w.packets, silent, input.segs);
    hide MuxWrites.Write, MuxWrites.CloseWriter, Notices.Ended, Failing;
    ghost var segs, w0, l0 := input.segs, w.Model(), w.writer.Model();
    FetchEnds(w.p, w0, l0, silent, segs, input.end);
    var err := WriteFirstPayload(input, w, silent);
    if silent || segs != [] {
      MuxWrites.WriteKeeps(w.p, w0, l0, if silent then [] else segs[0]);
      assert Given(silent, segs)[1..] == Passed(if silent then segs else segs[1..]);
    }
    if err == NoError {
      err := CopyInput(input, w);
    }
    failed := err != NoError;
    w.hasError := failed;
    w.Close();
  }

  /** What handle's writes and Close come to. */
  lemma RespondEnds(p: Addresses.Parser, w: MuxWrites.Writer, l: Links.Link, segs: seq<seq<Bytes>>, end: Error)
    requires w.followup && MuxWrites.Usable(w) && Small(segs)
    ensures MuxWrites.Writes(w.packets, Passed(segs))
    ensures var (w1, l1, err) := MuxWrites.WriteAll(p, w, l, Passed(segs));
            var l' := MuxWrites.CloseWriter(p, w1.(hasError := end != EOF || err != NoError), l1);
            Notices.Ended(l, l', w.id, end != EOF || Notices.Refusal(l, l.calls, l'.calls - 1))
  {
    hide MuxWrites.WriteAll, MuxWrites.CloseWriter, Notices.Ended, Notices.Refusal;
    PassedWrites(w.packets, segs);
    Notices.WriterEnds(p, w, l, Passed(segs), end != EOF);
  }

  /** The copy and the Close of handle, to a response writer. */
  method Respond(input: Source, w: MuxWriter)
    requires input.Valid() && MuxWrites.Usable(w.Model()) && w.followup && !w.hasError
    modifies input, w, w.writer
    ensures MuxWrites.Writes(w.packets, Passed(old(input.segs)))
    ensures var (w1, l, err) := MuxWrites.WriteAll(w.p, old(w.Model()), old(w.writer.Model()), Passed(old(input.segs)));
            && w.hasError == (err != NoError || input.end != EOF)
            && w.writer.Model() == MuxWrites.CloseWriter(w.p, w.Model(), l)
    ensures var l, l' := old(w.writer.Model()), w.writer.Model();
            Notices.Ended(l, l', w.id, input.end != EOF || Notices.Refusal(l, l.calls, l'.calls - 1))
  {
    hide MuxWrites.WriteAll, MuxWrites.CloseWriter, Notices.Ended, Notices.Refusal;
    RespondEnds(w.p, w.Model(), w.writer.Model(), input.segs, input.end);
    var err := CopyInput(input, w);
    w.hasError := err != NoError;
    w.Close();
  }
}
