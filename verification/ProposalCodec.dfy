/**
  A body codec that meets the law of `Codec.RoundTrips`: references as 16-bit code units, senders as
  32-bit leaf indices, and no sender for leaf zero. It stands in for the MLS library's encoding of
  the unapplied proposals, and keeps references that the library never makes.
 */
module ProposalCodec {
  import opened Wrappers
  import opened Buffers
  import opened Utf8
  import opened StringOrder
  import opened Codec
  import opened CodecTheorems

  type Senders = map<Text, Option<nat>>

  /** The states it is for: lengths and leaf indices fit 32 bits. */
  ghost function Fitting(): iset<Mls<()>> {
    iset m: Mls<()> | Fits(m.senders)
  }

  predicate Fits(senders: Senders) {
    forall ref :: ref in senders ==> |ref| < WORD && (senders[ref].Some? ==> senders[ref].value < WORD)
  }

  function WriteUnits(ref: Text): (b: Bytes)
    ensures |b| == 2 * |ref|
  {
    if ref == [] then [] else [ref[0] / 256, ref[0] % 256] + WriteUnits(ref[1..])
  }

  function ReadUnits(b: Bytes): (ref: Text)
    requires |b| % 2 == 0
    ensures 2 * |ref| == |b|
  {
    if b == [] then [] else [b[0] as int * 256 + b[1]] + ReadUnits(b[2..])
  }

  lemma {:induction false} UnitsReadBack(ref: Text)
    ensures ReadUnits(WriteUnits(ref)) == ref
  {
    if ref != [] {
      UnitsReadBack(ref[1..]);
      assert WriteUnits(ref)[2..] == WriteUnits(ref[1..]);
      assert ref == [ref[0]] + ref[1..];
    }
  }

  function WriteSender(sender: Option<nat>): (b: Bytes)
    ensures |b| == 5
  {
    if sender.None? then [0] + U32(0) else [1] + U32(sender.value)
  }

  function ReadSender(b: Bytes): (sender: Option<nat>)
    requires |b| == 5
    ensures sender.Some? ==> sender.value < WORD
  {
    if b[0] == 0 then None else Some(FromU32(b[1..]))
  }

  lemma SenderReadsBack(sender: Option<nat>)
    requires sender.Some? ==> sender.value < WORD
    ensures ReadSender(WriteSender(sender)) == sender
  {
    if sender.Some? {
      ReadWritten32(sender.value);
      assert WriteSender(sender)[1..] == U32(sender.value);
    }
  }

  function WriteEntry(ref: Text, sender: Option<nat>): Bytes {
    U32(|ref|) + WriteUnits(ref) + WriteSender(sender)
  }

  function WriteEntries(refs: seq<Text>, senders: Senders): Bytes
    requires forall ref :: ref in refs ==> ref in senders
  {
    if refs == [] then [] else WriteEntry(refs[0], senders[refs[0]]) + WriteEntries(refs[1..], senders)
  }

  function ReadEntries(b: Bytes): Option<Senders>
    decreases |b|
  {
    if b == [] then Some(map[])
    else if |b| < 4 || |b| < 9 + 2 * FromU32(b[..4]) then None
    else
      var n := 4 + 2 * FromU32(b[..4]);
      var rest := ReadEntries(b[n + 5..]);
      if rest.None? then None else Some(rest.value[ReadUnits(b[4..n]) := ReadSender(b[n..n + 5])])
  }

  lemma EntrySlices(ref: Text, sender: Option<nat>, rest: Bytes)
    requires |ref| < WORD
    ensures var b, n := WriteEntry(ref, sender) + rest, 4 + 2 * |ref|;
            && |b| == n + 5 + |rest| && FromU32(b[..4]) == |ref|
            && b[4..n] == WriteUnits(ref) && b[n..n + 5] == WriteSender(sender) && b[n + 5..] == rest
  {
    hide U32, FromU32, WriteUnits, WriteSender;
    var b, n := WriteEntry(ref, sender) + rest, 4 + 2 * |ref|;
    ReadWritten32(|ref|);
    assert b == U32(|ref|) + WriteUnits(ref) + WriteSender(sender) + rest;
    assert b[..4] == U32(|ref|);
  }

  lemma EntryReadsBack(ref: Text, sender: Option<nat>, rest: Bytes)
    requires |ref| < WORD && (sender.Some? ==> sender.value < WORD)
    ensures ReadEntries(WriteEntry(ref, sender) + rest) ==
            if ReadEntries(rest).None? then None else Some(ReadEntries(rest).value[ref := sender])
  {
    hide U32, FromU32, WriteUnits, ReadUnits, WriteSender, ReadSender, WriteEntry;
    EntrySlices(ref, sender, rest);
    UnitsReadBack(ref);
    SenderReadsBack(sender);
  }

  lemma {:induction false} EntriesReadBack(refs: seq<Text>, senders: Senders)
    requires Fits(senders) && forall ref :: ref in refs ==> ref in senders
    ensures ReadEntries(WriteEntries(refs, senders)) == Some(map ref | ref in refs :: senders[ref])
  {
    hide ReadEntries, WriteEntry;
    if refs == [] {
      NoEntries();
    } else {
      EntriesReadBack(refs[1..], senders);
      EntryReadsBack(refs[0], senders[refs[0]], WriteEntries(refs[1..], senders));
      assert refs == [refs[0]] + refs[1..];
      var rest := map ref | ref in refs[1..] :: senders[ref];
      assert rest[refs[0] := senders[refs[0]]] == map ref | ref in refs :: senders[ref];
    }
  }

  lemma NoEntries()
    ensures ReadEntries([]) == Some(map[])
  {
  }

  lemma {:induction false} EntriesFit(b: Bytes)
    requires ReadEntries(b).Some?
    ensures Fits(ReadEntries(b).value)
    decreases |b|
  {
    hide FromU32, ReadUnits, ReadSender;
    if b != [] {
      EntriesFit(b[9 + 2 * FromU32(b[..4])..]);
    }
  }

  ghost function Written(m: Mls<()>): Bytes {
    var kept := Erased(m).senders;
    WriteEntries(Sorted(kept.Keys), kept)
  }

  function Read(b: Bytes): Option<(Mls<()>, nat)> {
    var senders := ReadEntries(b);
    if senders.None? then None else Some((Mls((), senders.value), |b|))
  }

  ghost function Proposals(): BodyCodec<()> {
    BodyCodec(m => Written(m), b => Read(b))
  }

  lemma WrittenReadsBack(m: Mls<()>)
    requires Fits(m.senders)
    ensures Read(Written(m)) == Some((Erased(m), |Written(m)|))
  {
    hide ReadEntries, WriteEntries;
    ErasedFits(m);
    var kept := Erased(m).senders;
    EntriesReadBack(Sorted(kept.Keys), kept);
    assert (map ref | ref in Sorted(kept.Keys) :: kept[ref]) == kept;
    assert m.rest == ();
  }

  /** It meets the law on every state whose lengths and leaf indices fit 32 bits. */
  lemma ProposalsRoundTrip()
    ensures RoundTrips(Proposals(), Fitting())
  {
    hide Written, Read, Fits;
    forall m: Mls<()> ensures m in Fitting() <==> Erased(m) in Fitting() {
      ErasedFits(m);
    }
    forall m: Mls<()> | m in Fitting()
      ensures Read(Written(m)) == Some((Erased(m), |Written(m)|)) && Written(Erased(m)) == Written(m)
    {
      WrittenReadsBack(m);
      ErasedTwice(m);
    }
    forall b: Bytes | Read(b).Some? ensures Read(b).value.0 in Fitting() {
      ReadFits(b);
    }
  }

  lemma ErasedTwice(m: Mls<()>)
    ensures Written(Erased(m)) == Written(m)
  {
    assert Erased(Erased(m)).senders == Erased(m).senders;
  }

  lemma ReadFits(b: Bytes)
    requires Read(b).Some?
    ensures Fits(Read(b).value.0.senders)
  {
    EntriesFit(b);
  }

  lemma ErasedFits(m: Mls<()>)
    ensures Fits(m.senders) <==> Fits(Erased(m).senders)
  {
    var kept := Erased(m).senders;
    if Fits(kept) {
      forall ref | ref in m.senders ensures |ref| < WORD && (m.senders[ref].Some? ==> m.senders[ref].value < WORD) {
        assert ref in kept;
      }
    }
  }

  /** With it, a zero sender under a reference that is a lone surrogate is not read back. */
  lemma LoneSurrogateIsLost()
    ensures var s := ClientState(Mls((), map[[0xD800] := Some(0)]), None);
            Parsed(Proposals(), Printed(Proposals(), s)) != Decoded(s)
  {
    hide Parsed, Printed, Sorted, WellFormed, Encode, Erased, WriteEntries;
    var lone: Text := [0xD800];
    var s := ClientState(Mls((), map[lone := Some(0)]), None);
    assert ZeroRefs(s.mls) == {lone};
    OneListing([lone], Sorted({lone}), {lone});
    LoneIsIllFormed();
    WrittenLone();
    ProposalsRoundTrip();
    ParsePrinted(Proposals(), Fitting(), s);
  }

  lemma LoneIsIllFormed()
    ensures !WellFormed([0xD800]) && |Encode([0xD800])| == 3
  {
    assert Encode([0xD800]) == EncodeScalar(0xFFFD) + [];
  }

  lemma WrittenLone()
    ensures |Written(Mls((), map[[0xD800] := Some(0)]))| < WORD
  {
    hide Sorted;
    var lone: Text := [0xD800];
    var kept := Erased(Mls((), map[lone := Some(0)])).senders;
    assert kept.Keys == {lone};
    OneListing([lone], Sorted({lone}), {lone});
    assert WriteEntries([lone], kept) == WriteEntry(lone, None) + [];
  }
}
