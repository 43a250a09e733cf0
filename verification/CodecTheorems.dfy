/** The client-state codec is a bijection between the states it can hold and the bytes it accepts. */
module CodecTheorems {
  import opened Wrappers
  import opened Buffers
  import opened Utf8
  import opened StringOrder
  import opened Codec

  // ------------------------------------------------------------------------------------------
  // References.

  /** References of proposals without a sender. */
  ghost predicate Senderless(refs: seq<Text>, senders: map<Text, Option<nat>>) {
    forall i :: 0 <= i < |refs| ==> refs[i] in senders && senders[refs[i]].None?
  }

  ghost predicate Framable(refs: seq<Text>) {
    forall i :: 0 <= i < |refs| ==> WellFormed(refs[i]) && |Encode(refs[i])| < WORD
  }

  ghost predicate Follows(previous: Option<Text>, refs: seq<Text>) {
    previous.Some? && refs != [] ==> Less(previous.value, refs[0])
  }

  lemma FrameSlices(ref: Text, rest: Bytes)
    requires |Encode(ref)| < WORD
    ensures var b, n := Frame(ref) + rest, |Encode(ref)|;
            FromU32(b[..4]) == n && b[4..4 + n] == Encode(ref) && b[4 + n..] == rest
  {
    hide U32, FromU32, Encode;
    var b, n := Frame(ref) + rest, |Encode(ref)|;
    ReadWritten32(n);
    assert b[..4] == U32(n);
  }

  /** What was framed in ascending order parses back. */
  lemma {:induction false} ParseFramed(refs: seq<Text>, previous: Option<Text>, senders: map<Text, Option<nat>>)
    requires Ascending(refs) && Framable(refs) && Senderless(refs, senders) && Follows(previous, refs)
    ensures ParseRefs(Frames(refs), |refs|, previous, senders) == Some(refs)
    decreases |refs|
  {
    hide Less, Encode, WellFormed, Decode, U32, FromU32;
    if refs != [] {
      var head, tail := refs[0], refs[1..];
      FrameSlices(head, Frames(tail));
      DecodeEncoded(head);
      WellFormedIffUnchanged(head);
      ParseFramed(tail, Some(head), senders);
      assert refs == [head] + tail;
    }
  }

  /** What parses is ascending, well-formed and senderless, and frames to the same bytes. */
  lemma {:induction false} FrameParsed(b: Bytes, count: nat, previous: Option<Text>, senders: map<Text, Option<nat>>)
    requires ParseRefs(b, count, previous, senders).Some?
    ensures var refs := ParseRefs(b, count, previous, senders).value;
            && |refs| == count && Frames(refs) == b
            && Ascending(refs) && Framable(refs) && Senderless(refs, senders) && Follows(previous, refs)
    decreases count
  {
    hide Less, Encode, WellFormed, Decode, U32, FromU32;
    if count > 0 {
      var n := FromU32(b[..4]);
      var ref := Decode(b[4..4 + n]).value;
      var rest := ParseRefs(b[4 + n..], count - 1, Some(ref), senders).value;
      FrameParsed(b[4 + n..], count - 1, Some(ref), senders);
      EncodeDecoded(b[4..4 + n]);
      WrittenRead32(b[..4]);
      assert b == b[..4] + b[4..4 + n] + b[4 + n..];
      var refs := [ref] + rest;
      assert refs[1..] == rest;
      assert n < WORD && Framable(refs);
      forall i, j | 0 <= i < j < |refs| ensures Less(refs[i], refs[j]) {
        if i == 0 && j > 1 { LessTransitive(ref, rest[0], rest[j - 1]); }
      }
    }
  }

  lemma {:induction false} FramesAreLong(refs: seq<Text>)
    ensures |Frames(refs)| >= 4 * |refs|
  {
    if refs != [] { FramesAreLong(refs[1..]); }
  }

  // ------------------------------------------------------------------------------------------
  // Bodies.

  lemma PayloadSlices(body: Bytes, refs: seq<Text>)
    requires |body| < WORD && |refs| < WORD
    ensures var b, n := Payload(body, refs), |body|;
            && |b| == n + 8 + |Frames(refs)|
            && FromU32(b[..4]) == n && b[4..4 + n] == body
            && FromU32(b[4 + n..8 + n]) == |refs| && b[8 + n..] == Frames(refs)
  {
    hide U32, FromU32, Frames;
    var b, n := Payload(body, refs), |body|;
    ReadWritten32(n);
    ReadWritten32(|refs|);
    assert b[..4] == U32(n) && b[4 + n..8 + n] == U32(|refs|);
  }

  lemma ErasedHasNoZeros<R>(m: Mls<R>)
    ensures ZeroRefs(Erased(m)) == {}
    ensures m == Erased(m) <==> ZeroRefs(m) == {}
  {
    if ZeroRefs(m) == {} {
      assert forall ref :: ref in m.senders ==> ref !in ZeroRefs(m);
      assert Erased(m).senders == m.senders;
    } else {
      var ref :| ref in ZeroRefs(m);
      assert Erased(m).senders[ref].None?;
    }
  }

  /** Restoring exactly the zero senders gives the state back. */
  lemma RestoredIffSame<R>(m: Mls<R>, refs: seq<Text>)
    ensures Zeroed(Erased(m).senders, refs) == m.senders <==>
            forall ref :: ref in m.senders ==> (ref in refs <==> m.senders[ref] == Some(0))
  {
    var restored := Zeroed(Erased(m).senders, refs);
    if restored == m.senders {
      forall ref | ref in m.senders ensures ref in refs <==> m.senders[ref] == Some(0) {
        assert restored[ref] == m.senders[ref];
      }
    }
    if forall ref :: ref in m.senders ==> (ref in refs <==> m.senders[ref] == Some(0)) {
      assert restored.Keys == m.senders.Keys;
      forall ref | ref in m.senders ensures restored[ref] == m.senders[ref] {
      }
      assert restored == m.senders;
    }
  }

  /** The payload of a state parses back exactly when it fits and its zero-sender references are well-formed. */
  lemma ParsePrintedPayload<R(!new)>(codec: BodyCodec<R>, domain: iset<Mls<R>>, s: ClientState<R>)
    requires RoundTrips(codec, domain) && s.mls in domain
    requires |codec.encode(s.mls)| < WORD && |Sorted(ZeroRefs(s.mls))| < WORD
    requires forall ref :: ref in ZeroRefs(s.mls) ==> |Encode(ref)| < WORD
    ensures ParsePayload(codec, Payload(codec.encode(s.mls), Sorted(ZeroRefs(s.mls))), s.reservation) == Decoded(s)
       <==> |codec.encode(s.mls)| <= MAX_BODY_BYTES && forall ref :: ref in ZeroRefs(s.mls) ==> WellFormed(ref)
  {
    hide U32, FromU32, Frames, Sorted, Encode, WellFormed, ParseRefs, Payload;
    var body, refs := codec.encode(s.mls), Sorted(ZeroRefs(s.mls));
    var b := Payload(body, refs);
    PayloadSlices(body, refs);
    FramesAreLong(refs);
    var m := Erased(s.mls);
    assert codec.decode(body) == Some((m, |body|)) && codec.encode(m) == body;
    SenderlessWhenErased(s.mls, refs);
    if forall ref :: ref in ZeroRefs(s.mls) ==> WellFormed(ref) {
      ParseFramed(refs, None, m.senders);
      RestoredIffSame(s.mls, refs);
    } else if ParseRefs(Frames(refs), |refs|, None, m.senders).Some? {
      var read := ParseRefs(Frames(refs), |refs|, None, m.senders).value;
      FrameParsed(Frames(refs), |refs|, None, m.senders);
      RestoredIffSame(s.mls, read);
      var bad :| bad in ZeroRefs(s.mls) && !WellFormed(bad);
      assert bad !in read;
    }
  }

  lemma SenderlessWhenErased<R>(m: Mls<R>, refs: seq<Text>)
    requires Lists(refs, ZeroRefs(m))
    ensures Senderless(refs, Erased(m).senders)
    ensures (forall ref :: ref in ZeroRefs(m) ==> WellFormed(ref) && |Encode(ref)| < WORD) ==> Framable(refs)
  {
    forall i | 0 <= i < |refs| ensures refs[i] in ZeroRefs(m) {
      assert refs[i] in refs;
    }
  }

  // ------------------------------------------------------------------------------------------
  // Whole states.

  lemma HeaderParses<R>(codec: BodyCodec<R>, r: Option<Reservation>, payload: Bytes)
    requires Storable(r)
    ensures Parsed(codec, Header(r) + payload) == ParsePayload(codec, payload, r)
  {
    hide U32, U64, FromU32, FromU64, ParsePayload;
    var b := Header(r) + payload;
    if r.None? {
      assert b[2..] == payload;
    } else {
      var held := r.value;
      assert b[15..] == payload;
      var field := U64(held.epoch) + U32(held.generation) + [Flag(held.consumed)];
      assert b[2..15] == field && b[14] == Flag(held.consumed);
      assert field[..8] == U64(held.epoch) && field[8..12] == U32(held.generation) && field[12] == Flag(held.consumed);
      ReadWritten64(held.epoch);
      ReadWritten32(held.generation);
      assert ParseReservation(field) == held;
    }
  }

  /**
    A printed state reads back as itself, reservation and zero senders included, exactly when its
    body is within the size limit and its zero-sender references have no lone surrogate.
   */
  lemma ParsePrinted<R(!new)>(codec: BodyCodec<R>, domain: iset<Mls<R>>, s: ClientState<R>)
    requires RoundTrips(codec, domain) && s.mls in domain && Storable(s.reservation)
    requires |codec.encode(s.mls)| < WORD && |Sorted(ZeroRefs(s.mls))| < WORD
    requires forall ref :: ref in ZeroRefs(s.mls) ==> |Encode(ref)| < WORD
    ensures Parsed(codec, Printed(codec, s)) == Decoded(s) <==>
            |codec.encode(s.mls)| <= MAX_BODY_BYTES && forall ref :: ref in ZeroRefs(s.mls) ==> WellFormed(ref)
  {
    hide ParsePayload, Payload, Header, Parsed, Sorted;
    HeaderParses(codec, s.reservation, Payload(codec.encode(s.mls), Sorted(ZeroRefs(s.mls))));
    ParsePrintedPayload(codec, domain, s);
  }

  /** An accepted payload is the one form of the state it stands for. */
  lemma PrintParsedPayload<R(!new)>(codec: BodyCodec<R>, domain: iset<Mls<R>>, b: Bytes,
      r: Option<Reservation>)
    requires RoundTrips(codec, domain) && ParsePayload(codec, b, r).Decoded?
    ensures var s := ParsePayload(codec, b, r).state;
            s.mls in domain && s.reservation == r && Payload(codec.encode(s.mls), Sorted(ZeroRefs(s.mls))) == b
  {
    hide U32, FromU32, Frames, Sorted, Encode, WellFormed, ParseRefs;
    var n := FromU32(b[..4]);
    var body, count := b[4..4 + n], FromU32(b[4 + n..8 + n]);
    var m := codec.decode(body).value.0;
    var refs := ParseRefs(b[8 + n..], count, None, m.senders).value;
    var s := ParsePayload(codec, b, r).state;
    FrameParsed(b[8 + n..], count, None, m.senders);
    assert Erased(m) == m by {
      assert codec.decode(codec.encode(m)) == Some((Erased(m), |body|));
    }
    ZeroedErases(m, refs);
    assert codec.encode(s.mls) == body by {
      assert codec.encode(Erased(s.mls)) == codec.encode(s.mls);
    }
    OneListing(refs, Sorted(ZeroRefs(s.mls)), ZeroRefs(s.mls));
    WrittenRead32(b[..4]);
    WrittenRead32(b[4 + n..8 + n]);
    assert b == b[..4] + b[4..4 + n] + b[4 + n..8 + n] + b[8 + n..];
  }

  /** Zeroing senderless proposals of a state without zero senders is undone by erasing, and names exactly them. */
  lemma ZeroedErases<R>(m: Mls<R>, refs: seq<Text>)
    requires Erased(m) == m && Senderless(refs, m.senders) && Ascending(refs)
    ensures var z := m.(senders := Zeroed(m.senders, refs)); Erased(z) == m && Lists(refs, ZeroRefs(z))
  {
    var z := m.(senders := Zeroed(m.senders, refs));
    ErasedHasNoZeros(m);
    forall ref | ref in m.senders ensures m.senders[ref] != Some(0) {
      assert ref !in ZeroRefs(m);
    }
    forall ref | ref in refs ensures ref in m.senders && m.senders[ref].None? {
      var i :| 0 <= i < |refs| && refs[i] == ref;
    }
    assert Erased(z).senders == m.senders;
    assert forall ref :: ref in refs <==> ref in ZeroRefs(z);
  }

  /** Every accepted byte string is the printed form of the state it reads as: there is no second encoding. */
  lemma PrintParsed<R(!new)>(codec: BodyCodec<R>, domain: iset<Mls<R>>, b: Bytes)
    requires RoundTrips(codec, domain) && Parsed(codec, b).Decoded?
    ensures var s := Parsed(codec, b).state; s.mls in domain && Storable(s.reservation) && Printed(codec, s) == b
  {
    hide U32, U64, FromU32, FromU64, ParsePayload, Payload, Sorted;
    var s := Parsed(codec, b).state;
    if b[1] == 0 {
      PrintParsedPayload(codec, domain, b[2..], None);
      assert b == [b[0], b[1]] + b[2..];
    } else {
      var field := b[2..15];
      PrintParsedPayload(codec, domain, b[15..], Some(ParseReservation(field)));
      WrittenRead64(field[..8]);
      WrittenRead32(field[8..12]);
      assert field == field[..8] + field[8..12] + [field[12]];
      assert b == [b[0], b[1]] + field + b[15..];
    }
  }

  /** Two accepted byte strings that read as one state are the same bytes. */
  lemma AcceptedBytesAreCanonical<R(!new)>(codec: BodyCodec<R>, domain: iset<Mls<R>>, a: Bytes, b: Bytes)
    requires RoundTrips(codec, domain) && Parsed(codec, a).Decoded? && Parsed(codec, a) == Parsed(codec, b)
    ensures a == b
  {
    PrintParsed(codec, domain, a);
    PrintParsed(codec, domain, b);
  }
}
