/**
  The client-state codec (`packages/mls/src/codec.ts`): a version byte, flags, an optional handshake
  reservation, a length-prefixed MLS body, and the sorted references of the unapplied proposals
  whose sender is exactly leaf zero, which the body encoding loses.

  The body codec is a parameter, with the set of states it is for. All that is asked of it is that
  decoding one of them gives the state back up to those zero senders; it may accept other bytes too.
 */
module Codec {
  import opened Wrappers
  import opened Buffers
  import opened Utf8
  import opened StringOrder

  /** An MLS state: the senders of its unapplied proposals by reference, and everything else. */
  datatype Mls<R> = Mls(rest: R, senders: map<Text, Option<nat>>)

  datatype Reservation = Reservation(epoch: int, generation: int, consumed: bool)

  datatype ClientState<R> = ClientState(mls: Mls<R>, reservation: Option<Reservation>)

  datatype Outcome<R> = Unsupported(version: Byte) | Malformed | Decoded(state: ClientState<R>)

  datatype BodyCodec<!R> = BodyCodec(encode: Mls<R> -> Bytes, decode: Bytes -> Option<(Mls<R>, nat)>)

  const VERSION: Byte := 2
  const RESERVATION_BYTES := 13
  const MAX_BODY_BYTES := 64_000_000

  function ZeroRefs<R>(m: Mls<R>): set<Text> {
    set ref | ref in m.senders && m.senders[ref] == Some(0)
  }

  /** The state as the body encoding keeps it: zero senders are dropped. */
  function Erased<R>(m: Mls<R>): Mls<R> {
    m.(senders := map ref | ref in m.senders :: if m.senders[ref] == Some(0) then None else m.senders[ref])
  }

  /**
    The law of the body codec, on the states it is for: those states are told without looking at
    zero senders, decoding what was encoded gives the state back up to them, and every body that
    decodes and encodes to itself is one of theirs.
   */
  ghost predicate RoundTrips<R(!new)>(codec: BodyCodec<R>, domain: iset<Mls<R>>) {
    && (forall m: Mls<R> :: m in domain <==> Erased(m) in domain)
    && (forall m: Mls<R> :: m in domain ==>
          && codec.decode(codec.encode(m)) == Some((Erased(m), |codec.encode(m)|))
          && codec.encode(Erased(m)) == codec.encode(m))
    && (forall b: Bytes :: codec.decode(b).Some? && codec.encode(codec.decode(b).value.0) == b ==>
          codec.decode(b).value.0 in domain)
  }

  predicate Storable(r: Option<Reservation>) {
    r.Some? ==> 0 <= r.value.epoch < WORD * WORD && 0 <= r.value.generation < WORD
  }

  // ------------------------------------------------------------------------------------------
  // References in string order.

  ghost predicate Ascending(refs: seq<Text>) {
    forall i, j :: 0 <= i < j < |refs| ==> Less(refs[i], refs[j])
  }

  ghost predicate Lists(refs: seq<Text>, members: set<Text>) {
    Ascending(refs) && forall ref :: ref in refs <==> ref in members
  }

  function Insert(refs: seq<Text>, x: Text): seq<Text> {
    if refs == [] || Less(x, refs[0]) then [x] + refs else [refs[0]] + Insert(refs[1..], x)
  }

  lemma {:induction false} InsertLists(refs: seq<Text>, members: set<Text>, x: Text)
    requires Lists(refs, members) && x !in members
    ensures Lists(Insert(refs, x), members + {x})
  {
    if refs != [] {
      var head, tail := refs[0], refs[1..];
      assert refs == [head] + tail;
      forall ref | ref in tail ensures Less(head, ref) {
      }
      assert head !in tail by {
        if head in tail { LessIsStrict(head, head); }
      }
      if Less(x, head) {
        forall ref | ref in tail ensures Less(x, ref) { LessTransitive(x, head, ref); }
      } else {
        LessIsTotal(x, head);
        InsertLists(tail, members - {head}, x);
        var rest := Insert(tail, x);
        assert forall ref :: ref in rest ==> Less(head, ref);
        assert members + {x} == {head} + (members - {head} + {x});
      }
    }
  }

  lemma {:induction false} OneListing(a: seq<Text>, b: seq<Text>, members: set<Text>)
    requires Lists(a, members) && Lists(b, members)
    ensures a == b
    decreases |a|
  {
    if a != [] { assert a[0] in a && a[0] in members; }
    if b != [] { assert b[0] in b && b[0] in members; }
    if a != [] {
      FirstIsLeast(a, b[0]);
      FirstIsLeast(b, a[0]);
      if a[0] != b[0] { LessIsStrict(a[0], b[0]); }
      TailLists(a, members);
      TailLists(b, members);
      OneListing(a[1..], b[1..], members - {a[0]});
    }
  }

  lemma FirstIsLeast(refs: seq<Text>, x: Text)
    requires Ascending(refs) && x in refs
    ensures x == refs[0] || Less(refs[0], x)
  {
  }

  lemma TailLists(refs: seq<Text>, members: set<Text>)
    requires Lists(refs, members) && refs != []
    ensures Lists(refs[1..], members - {refs[0]})
  {
    assert refs == [refs[0]] + refs[1..];
    forall ref | ref in refs[1..] ensures ref != refs[0] { LessIsStrict(refs[0], ref); }
  }

  lemma {:induction false} Listing(members: set<Text>)
    ensures exists refs :: Lists(refs, members)
  {
    if members == {} {
      assert Lists([], members);
    } else {
      var x :| x in members;
      Listing(members - {x});
      var refs :| Lists(refs, members - {x});
      InsertLists(refs, members - {x}, x);
      assert members - {x} + {x} == members;
    }
  }

  /** The members in ascending order. */
  ghost function Sorted(members: set<Text>): (refs: seq<Text>)
    ensures Lists(refs, members)
  {
    Listing(members);
    var refs :| Lists(refs, members);
    refs
  }

  // ------------------------------------------------------------------------------------------
  // The format.

  function Frame(ref: Text): Bytes {
    U32(|Encode(ref)|) + Encode(ref)
  }

  function Frames(refs: seq<Text>): Bytes {
    if refs == [] then [] else Frame(refs[0]) + Frames(refs[1..])
  }

  function Flag(b: bool): Byte {
    if b then 1 else 0
  }

  function Header(r: Option<Reservation>): Bytes
    requires Storable(r)
  {
    [VERSION, Flag(r.Some?)] +
    if r.None? then [] else U64(r.value.epoch) + U32(r.value.generation) + [Flag(r.value.consumed)]
  }

  function Payload(body: Bytes, refs: seq<Text>): Bytes {
    U32(|body|) + body + U32(|refs|) + Frames(refs)
  }

  ghost function Printed<R>(codec: BodyCodec<R>, s: ClientState<R>): Bytes
    requires Storable(s.reservation)
  {
    Header(s.reservation) + Payload(codec.encode(s.mls), Sorted(ZeroRefs(s.mls)))
  }

  /** The references in a stretch of bytes, each after the one before and naming a proposal without a sender. */
  function ParseRefs(b: Bytes, count: nat, previous: Option<Text>, senders: map<Text, Option<nat>>): Option<seq<Text>>
    decreases count
  {
    if count == 0 then if b == [] then Some([]) else None
    else if |b| < 4 || FromU32(b[..4]) > |b| - 4 then None
    else
      var n := FromU32(b[..4]);
      var ref := Decode(b[4..4 + n]);
      if ref.None? || (previous.Some? && !Less(previous.value, ref.value)) then None
      else if ref.value !in senders || senders[ref.value].Some? then None
      else
        var rest := ParseRefs(b[4 + n..], count - 1, ref, senders);
        if rest.None? then None else Some([ref.value] + rest.value)
  }

  function Zeroed(senders: map<Text, Option<nat>>, refs: seq<Text>): map<Text, Option<nat>> {
    map ref | ref in senders :: if ref in refs then Some(0) else senders[ref]
  }

  function ParsePayload<R>(codec: BodyCodec<R>, b: Bytes, reservation: Option<Reservation>): Outcome<R> {
    if |b| < 4 then Malformed
    else
      var n := FromU32(b[..4]);
      if n > MAX_BODY_BYTES || n + 8 > |b| then Malformed
      else
        var body := b[4..4 + n];
        var count := FromU32(b[4 + n..8 + n]);
        if count > (|b| - 8 - n) / 4 then Malformed
        else
          var decoded := codec.decode(body);
          if decoded.None? || decoded.value.1 != n || codec.encode(decoded.value.0) != body then Malformed
          else
            var m := decoded.value.0;
            var refs := ParseRefs(b[8 + n..], count, None, m.senders);
            if refs.None? then Malformed
            else Decoded(ClientState(m.(senders := Zeroed(m.senders, refs.value)), reservation))
  }

  function ParseReservation(b: Bytes): Reservation
    requires |b| == RESERVATION_BYTES && b[12] < 2
  {
    Reservation(FromU64(b[..8]), FromU32(b[8..12]), b[12] == 1)
  }

  function Parsed<R>(codec: BodyCodec<R>, b: Bytes): Outcome<R> {
    if b == [] then Malformed
    else if b[0] != VERSION then Unsupported(b[0])
    else if |b| < 2 || b[1] > 1 then Malformed
    else if b[1] == 0 then ParsePayload(codec, b[2..], None)
    else if |b| < 2 + RESERVATION_BYTES || b[14] > 1 then Malformed
    else ParsePayload(codec, b[15..], Some(ParseReservation(b[2..15])))
  }

  // ------------------------------------------------------------------------------------------
  // The moving offset.

  method SortRefs(members: set<Text>) returns (refs: seq<Text>)
    ensures refs == Sorted(members)
  {
    refs := [];
    var todo := members;
    while todo != {}
      invariant todo <= members
      invariant Lists(refs, members - todo)
      decreases todo
    {
      var ref :| ref in todo;
      InsertLists(refs, members - todo, ref);
      assert members - todo + {ref} == members - (todo - {ref});
      refs := Insert(refs, ref);
      todo := todo - {ref};
    }
    assert members - todo == members;
    OneListing(refs, Sorted(members), members);
  }

  /** Print a state; a reservation its fields cannot hold is an error. */
  method EncodeClientState<R>(codec: BodyCodec<R>, s: ClientState<R>) returns (r: Result<array<Byte>, ()>)
    ensures r.Err? <==> !Storable(s.reservation)
    ensures r.Ok? ==> fresh(r.value) && r.value[..] == Printed(codec, s)
  {
    hide U32, U64, FromU32, FromU64, Frames, Sorted, Encode, ZeroRefs, Printed;
    if s.reservation.Some?
       && !(0 <= s.reservation.value.epoch < WORD * WORD && 0 <= s.reservation.value.generation < WORD)
    {
      return Err(());
    }
    var body := codec.encode(s.mls);
    var refs := SortRefs(ZeroRefs(s.mls));
    var header := if s.reservation.None? then 2 else 2 + RESERVATION_BYTES;
    var size := FramesSize(refs);
    var out := new Byte[header + 8 + |body| + size];
    var head: Bytes := [VERSION, Flag(s.reservation.Some?)];
    if s.reservation.Some? {
      var held := s.reservation.value;
      head := head + U64(held.epoch) + U32(held.generation) + [Flag(held.consumed)];
    }
    assert head == Header(s.reservation);
    ghost var prefix := head + U32(|body|) + body + U32(|refs|);
    WritePayload(out, head, body, |refs|);
    WriteFrames(out, header + 8 + |body|, refs);
    assert out[..] == prefix + Frames(refs);
    PrintedInOrder(codec, s);
    return Ok(out);
  }

  lemma PrintedInOrder<R>(codec: BodyCodec<R>, s: ClientState<R>)
    requires Storable(s.reservation)
    ensures var body, refs := codec.encode(s.mls), Sorted(ZeroRefs(s.mls));
            Printed(codec, s) == Header(s.reservation) + U32(|body|) + body + U32(|refs|) + Frames(refs)
  {
    hide U32, Frames, Sorted, ZeroRefs, Header;
  }

  /** Write everything before the references. */
  method WritePayload(out: array<Byte>, head: Bytes, body: Bytes, refCount: nat)
    requires |head| + 8 + |body| <= out.Length
    modifies out
    ensures out[..|head| + 8 + |body|] == head + U32(|body|) + body + U32(refCount)
  {
    hide U32;
    Blit(out, 0, head);
    assert out[..|head|] == head;
    Blit(out, |head|, U32(|body|));
    assert out[..|head| + 4] == head + U32(|body|);
    Blit(out, |head| + 4, body);
    assert out[..|head| + 4 + |body|] == head + U32(|body|) + body;
    Blit(out, |head| + 4 + |body|, U32(refCount));
  }

  method FramesSize(refs: seq<Text>) returns (size: nat)
    ensures size == |Frames(refs)|
  {
    size := 0;
    var i := 0;
    while i < |refs|
      invariant 0 <= i <= |refs|
      invariant size + |Frames(refs[i..])| == |Frames(refs)|
    {
      assert refs[i..][1..] == refs[i + 1..];
      size := size + 4 + |Encode(refs[i])|;
      i := i + 1;
    }
  }

  method WriteFrame(out: array<Byte>, offset: nat, ref: Text)
    requires offset + |Frame(ref)| <= out.Length
    modifies out
    ensures out[..offset + |Frame(ref)|] == old(out[..offset]) + Frame(ref)
  {
    hide U32, Encode;
    var bytes := Encode(ref);
    Blit(out, offset, U32(|bytes|));
    assert out[..offset + 4] == old(out[..offset]) + U32(|bytes|);
    Blit(out, offset + 4, bytes);
    assert out[..offset + 4 + |bytes|] == old(out[..offset]) + U32(|bytes|) + bytes;
  }

  /** Write the references one after the other at a moving offset. */
  method WriteFrames(out: array<Byte>, start: nat, refs: seq<Text>)
    requires start + |Frames(refs)| == out.Length
    modifies out
    ensures out[..] == old(out[..start]) + Frames(refs)
  {
    hide U32, Encode;
    var i, offset := 0, start;
    while i < |refs|
      invariant 0 <= i <= |refs|
      invariant start <= offset <= out.Length && offset + |Frames(refs[i..])| == out.Length
      invariant out[..offset] + Frames(refs[i..]) == old(out[..start]) + Frames(refs)
    {
      var bytes := Encode(refs[i]);
      assert refs[i..][1..] == refs[i + 1..];
      assert Frames(refs[i..]) == Frame(refs[i]) + Frames(refs[i + 1..]);
      ghost var before := out[..offset];
      WriteFrame(out, offset, refs[i]);
      assert before + (Frame(refs[i]) + Frames(refs[i + 1..])) == before + Frame(refs[i]) + Frames(refs[i + 1..]);
      offset := offset + 4 + |bytes|;
      i := i + 1;
    }
    assert out[..] == out[..offset];
  }

  /** Read the references at a moving offset, restoring each zero sender in place. */
  method ReadRefs(encoded: array<Byte>, start: nat, count: nat, senders: map<Text, Option<nat>>)
    returns (r: Option<map<Text, Option<nat>>>)
    requires start <= encoded.Length
    ensures var refs := ParseRefs(encoded[start..], count, None, senders);
            r == if refs.None? then None else Some(Zeroed(senders, refs.value))
  {
    hide Decode, FromU32, Less, Ascending, Zeroed;
    NoneRead(senders);
    var index, offset, current: map<Text, Option<nat>> := 0, start, senders;
    var previous: Option<Text> := None;
    ghost var read: seq<Text> := [];
    ghost var all := ParseRefs(encoded[start..], count, None, senders);
    assert all.Some? ==> [] + all.value == all.value;
    while index < count
      invariant 0 <= index <= count && start <= offset <= encoded.Length
      invariant current == Zeroed(senders, read) && Ascending(read)
      invariant previous == if read == [] then None else Some(read[|read| - 1])
      invariant var rest := ParseRefs(encoded[offset..], count - index, previous, senders);
                ParseRefs(encoded[start..], count, None, senders) ==
                if rest.None? then None else Some(read + rest.value)
    {
      ghost var rest := encoded[offset..];
      if encoded.Length - offset < 4 { return None; }
      var length := FromU32(encoded[offset..offset + 4]);
      assert rest[..4] == encoded[offset..offset + 4];
      offset := offset + 4;
      if length > encoded.Length - offset { return None; }
      var ref := Decode(encoded[offset..offset + length]);
      assert rest[4..4 + length] == encoded[offset..offset + length];
      assert rest[4 + length..] == encoded[offset + length..];
      offset := offset + length;
      if ref.None? { return None; }
      if previous.Some? && !Less(previous.value, ref.value) { return None; }
      LaterIsNew(read, ref.value);
      NotYetZeroed(senders, read, ref.value);
      if ref.value !in current || current[ref.value].Some? { return None; }
      current := current[ref.value := Some(0)];
      ZeroedGrows(senders, read, ref.value);
      ghost var more := ParseRefs(encoded[offset..], count - index - 1, ref, senders);
      assert more.Some? ==> read + ([ref.value] + more.value) == read + [ref.value] + more.value;
      read := read + [ref.value];
      previous := ref;
      index := index + 1;
    }
    if offset != encoded.Length {
      assert encoded[offset..] != [];
      return None;
    }
    assert read + [] == read;
    return Some(current);
  }

  lemma NoneRead(senders: map<Text, Option<nat>>)
    ensures Ascending([]) && Zeroed(senders, []) == senders
  {
  }

  lemma NotYetZeroed(senders: map<Text, Option<nat>>, read: seq<Text>, ref: Text)
    requires ref !in read
    ensures ref in Zeroed(senders, read) <==> ref in senders
    ensures ref in senders ==> Zeroed(senders, read)[ref] == senders[ref]
  {
  }

  lemma ZeroedGrows(senders: map<Text, Option<nat>>, read: seq<Text>, ref: Text)
    requires ref in senders
    ensures Zeroed(senders, read)[ref := Some(0)] == Zeroed(senders, read + [ref])
  {
  }

  lemma LaterIsNew(read: seq<Text>, ref: Text)
    requires Ascending(read) && (read != [] ==> Less(read[|read| - 1], ref))
    ensures ref !in read && Ascending(read + [ref])
  {
    forall i | 0 <= i < |read| ensures Less(read[i], ref) {
      if i < |read| - 1 { LessTransitive(read[i], read[|read| - 1], ref); }
    }
    if ref in read { LessIsStrict(ref, ref); }
  }

  /** Parse the body and the references from an offset on. */
  method DecodePayload<R>(codec: BodyCodec<R>, encoded: array<Byte>, start: nat, reservation: Option<Reservation>)
    returns (r: Outcome<R>)
    requires start <= encoded.Length
    ensures r == ParsePayload(codec, encoded[start..], reservation)
  {
    hide FromU32, ParseRefs, Zeroed;
    var offset := start;
    ghost var b := encoded[start..];
    if encoded.Length - offset < 4 { return Malformed; }
    var bodyLength := FromU32(encoded[offset..offset + 4]);
    assert b[..4] == encoded[offset..offset + 4];
    offset := offset + 4;
    if bodyLength > MAX_BODY_BYTES || bodyLength > encoded.Length - offset - 4 { return Malformed; }
    var body := encoded[offset..offset + bodyLength];
    assert b[4..4 + bodyLength] == body;
    offset := offset + bodyLength;
    var refCount := FromU32(encoded[offset..offset + 4]);
    assert b[4 + bodyLength..8 + bodyLength] == encoded[offset..offset + 4];
    offset := offset + 4;
    assert b[8 + bodyLength..] == encoded[offset..];
    if refCount > (encoded.Length - offset) / 4 { return Malformed; }
    var result := codec.decode(body);
    if result.None? || result.value.1 != |body| { return Malformed; }
    var mls := result.value.0;
    if codec.encode(mls) != body { return Malformed; }
    var senders := ReadRefs(encoded, offset, refCount, mls.senders);
    if senders.None? { return Malformed; }
    return Decoded(ClientState(mls.(senders := senders.value), reservation));
  }

  /** Parse a stored state; only the version error is told apart from malformed storage. */
  method DecodeClientState<R>(codec: BodyCodec<R>, encoded: array<Byte>) returns (r: Outcome<R>)
    ensures r == Parsed(codec, encoded[..])
  {
    hide FromU32, FromU64, ParsePayload;
    ghost var b := encoded[..];
    if encoded.Length == 0 { return Malformed; }
    if encoded[0] != VERSION { return Unsupported(encoded[0]); }
    if encoded.Length < 2 || encoded[1] > 1 { return Malformed; }
    var offset := 2;
    var reservation: Option<Reservation> := None;
    if encoded[1] == 1 {
      if encoded.Length < offset + RESERVATION_BYTES || encoded[14] > 1 { return Malformed; }
      reservation := Some(Reservation(FromU64(encoded[2..10]), FromU32(encoded[10..14]), encoded[14] == 1));
      assert b[2..15][..8] == encoded[2..10] && b[2..15][8..12] == encoded[10..14];
      offset := offset + RESERVATION_BYTES;
    }
    assert b[offset..] == encoded[offset..];
    r := DecodePayload(codec, encoded, offset, reservation);
  }
}
