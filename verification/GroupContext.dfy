/**
  The GroupContext extension list: where the ledger head is read, how a commit moves it, and what
  the receiving policy lets a proposed list change
  (`packages/mls/src/head.ts`, `packages/mls/src/group-commit.ts`, `packages/mls/src/policy.ts`).
 */
module GroupContext {
  import opened Wrappers
  import opened Buffers
  import opened Utf8
  import opened Head

  datatype Extension = Extension(kind: nat, data: Bytes)

  const HEAD_TYPE := 0xf101
  const RESERVED_TYPE := 0xf102

  /** The first extension of a kind. */
  function Find(extensions: seq<Extension>, kind: nat): Option<Bytes> {
    if extensions == [] then None
    else if extensions[0].kind == kind then Some(extensions[0].data)
    else Find(extensions[1..], kind)
  }

  datatype HeadRead = Absent | Corrupt | Present(head: Bytes)

  /** Absent only when there is no head extension; present but undecodable is corruption. */
  function ReadHead(extensions: seq<Extension>): HeadRead {
    match Find(extensions, HEAD_TYPE)
    case None => Absent
    case Some(data) => if DecodeLedgerHead(data).Some? then Present(DecodeLedgerHead(data).value) else Corrupt
  }

  /** The list with only the head's data replaced. */
  function WithHead(extensions: seq<Extension>, data: Bytes): (r: seq<Extension>)
    ensures |r| == |extensions|
  {
    if extensions == [] then []
    else [if extensions[0].kind == HEAD_TYPE then Extension(HEAD_TYPE, data) else extensions[0]]
         + WithHead(extensions[1..], data)
  }

  /** The head data a commit enacting these entries must install. */
  function ExpectedHeadData(h: Hash, extensions: seq<Extension>, ids: seq<Text>): Bytes {
    match ReadHead(extensions)
    case Present(head) => Encoded(Extend(h, head, ids))
    case Absent => []
    case Corrupt => []
  }

  /** The first reserved extension with no data, which a commit may also install. */
  function FirstReserved(extensions: seq<Extension>): (i: Option<nat>)
    ensures i.Some? ==> i.value < |extensions| && extensions[i.value] == Extension(RESERVED_TYPE, [])
  {
    if extensions == [] then None
    else if extensions[0] == Extension(RESERVED_TYPE, []) then Some(0)
    else
      var rest := FirstReserved(extensions[1..]);
      if rest.None? then None else Some(rest.value + 1)
  }

  /** The receiving rule: the list may only move the head as expected, and install the reserved type. */
  predicate Admissible(current: seq<Extension>, proposed: seq<Extension>, headData: Bytes) {
    var expected := WithHead(current, headData);
    var candidate :=
      if Find(expected, RESERVED_TYPE).None? && |proposed| == |expected| + 1 && FirstReserved(proposed).Some?
      then proposed[..FirstReserved(proposed).value] + proposed[FirstReserved(proposed).value + 1..]
      else proposed;
    candidate == expected
  }

  lemma {:induction false} FindWithHead(extensions: seq<Extension>, data: Bytes, kind: nat)
    ensures Find(WithHead(extensions, data), kind) ==
            if kind == HEAD_TYPE && Find(extensions, kind).Some? then Some(data) else Find(extensions, kind)
  {
    if extensions != [] {
      FindWithHead(extensions[1..], data, kind);
      var rest := WithHead(extensions[1..], data);
      assert WithHead(extensions, data)[1..] == rest;
    }
  }

  lemma {:induction false} FindWithout(extensions: seq<Extension>, i: nat, kind: nat)
    requires i < |extensions| && extensions[i].kind != kind
    ensures Find(extensions[..i] + extensions[i + 1..], kind) == Find(extensions, kind)
  {
    if i == 0 {
      assert extensions[..0] + extensions[1..] == extensions[1..];
    } else {
      FindWithout(extensions[1..], i - 1, kind);
      var without := extensions[..i] + extensions[i + 1..];
      assert without[0] == extensions[0];
      assert without[1..] == extensions[1..][..i - 1] + extensions[1..][i..];
    }
  }

  /** An admitted list carries exactly the expected head, and every other kind as it was. */
  lemma AdmittedList(current: seq<Extension>, proposed: seq<Extension>, headData: Bytes, kind: nat)
    requires Admissible(current, proposed, headData) && kind != RESERVED_TYPE
    ensures Find(proposed, kind) ==
            if kind == HEAD_TYPE && Find(current, kind).Some? then Some(headData) else Find(current, kind)
  {
    FindWithHead(current, headData, kind);
    var i := FirstReserved(proposed);
    if i.Some? {
      FindWithout(proposed, i.value, kind);
    }
  }

  /** What a commit installs moves the head by exactly the entries it enacts. */
  lemma HeadMoves(h: Hash, current: seq<Extension>, proposed: seq<Extension>, ids: seq<Text>)
    requires Digests(h)
    requires Admissible(current, proposed, ExpectedHeadData(h, current, ids))
    requires ReadHead(current).Present?
    ensures ReadHead(proposed) == Present(Extend(h, ReadHead(current).head, ids))
  {
    AdmittedList(current, proposed, ExpectedHeadData(h, current, ids), HEAD_TYPE);
    var head := Extend(h, ReadHead(current).head, ids);
    assert |head| == DIGEST by {
      HeadEncodingIsCanonical(ReadHead(current).head, Find(current, HEAD_TYPE).value);
    }
    HeadEncodingIsCanonical(head, Encoded(head));
  }

  /** The list an author proposes is one every receiver at the same list admits. */
  lemma AuthoredIsAdmissible(current: seq<Extension>, data: Bytes)
    ensures Admissible(current, WithHead(current, data), data)
  {
  }
}
