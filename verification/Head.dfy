/**
  The ledger head: a hash chain over the ordered entry IDs (`packages/mls/src/head.ts`).

  SHA-256 appears as a parameter `h`. Nothing is assumed of it but its 32-byte output, so binding is
  stated as extraction: from two lists with one head a function computes an explicit collision of
  `h`, or a digest that starts with the 25-byte domain separator, unless the lists agree.
 */
module Head {
  import opened Wrappers
  import opened Buffers
  import opened Utf8

  type Hash = Bytes -> Bytes

  const DIGEST := 32
  const VERSION: Byte := 1

  /** "kumiai/mls/ledger-head/v1" */
  const DOMAIN: Bytes := [
    107, 117, 109, 105, 97, 105, 47, 109, 108, 115, 47,
    108, 101, 100, 103, 101, 114, 45, 104, 101, 97, 100, 47, 118, 49]

  ghost predicate Digests(h: Hash) {
    forall x: Bytes {:trigger h(x)} :: |h(x)| == DIGEST
  }

  function Frame(id: Text): Bytes {
    U32(|Encode(id)|) + Encode(id)
  }

  function Genesis(h: Hash, groupID: Text): Bytes {
    h(DOMAIN + Encode(groupID))
  }

  /** The chain read from its end: each link hashes the head before it and one framed ID. */
  function Extend(h: Hash, head: Bytes, ids: seq<Text>): Bytes {
    if ids == [] then head
    else h(Extend(h, head, ids[..|ids| - 1]) + Frame(ids[|ids| - 1]))
  }

  function Compute(h: Hash, groupID: Text, ids: seq<Text>): Bytes {
    Extend(h, Genesis(h, groupID), ids)
  }

  // ------------------------------------------------------------------------------------------
  // The loops and buffers.

  /** Length-frame one entry ID. */
  method FrameID(id: Text) returns (framed: array<Byte>)
    ensures fresh(framed) && framed[..] == Frame(id)
  {
    var bytes := Encode(id);
    framed := new Byte[4 + |bytes|];
    Blit(framed, 0, U32(|bytes|));
    Blit(framed, 4, bytes);
    assert framed[..] == U32(|bytes|) + bytes;
  }

  /** Extend a head by a batch of entry IDs, left to right. */
  method ExtendHead(h: Hash, head: Bytes, ids: seq<Text>) returns (acc: Bytes)
    ensures acc == Extend(h, head, ids)
  {
    acc := head;
    var i := 0;
    while i < |ids|
      invariant 0 <= i <= |ids|
      invariant acc == Extend(h, head, ids[..i])
    {
      var framed := FrameID(ids[i]);
      acc := h(acc + framed[..]);
      assert ids[..i + 1][..i] == ids[..i];
      i := i + 1;
    }
    assert ids[..|ids|] == ids;
  }

  method ComputeHead(h: Hash, groupID: Text, ids: seq<Text>) returns (head: Bytes)
    ensures head == Compute(h, groupID, ids)
  {
    head := ExtendHead(h, Genesis(h, groupID), ids);
  }

  method BytesEqual(a: array<Byte>, b: array<Byte>) returns (equal: bool)
    ensures equal <==> a[..] == b[..]
  {
    if a.Length != b.Length { return false; }
    var i := 0;
    while i < a.Length
      invariant 0 <= i <= a.Length
      invariant a[..i] == b[..i]
    {
      if a[i] != b[i] {
        assert a[..][i] != b[..][i];
        return false;
      }
      i := i + 1;
    }
    assert a[..] == a[..i] && b[..] == b[..i];
    return true;
  }

  method EncodeLedgerHead(head: Bytes) returns (bytes: array<Byte>)
    ensures fresh(bytes) && bytes[..] == Encoded(head)
  {
    bytes := new Byte[1 + |head|];
    bytes[0] := VERSION;
    Blit(bytes, 1, head);
    assert bytes[..] == [VERSION] + head;
  }

  function Encoded(head: Bytes): Bytes {
    [VERSION] + head
  }

  /** Tolerant decode: only a version-1 buffer of one digest decodes. */
  function DecodeLedgerHead(bytes: Bytes): Option<Bytes> {
    if |bytes| != 1 + DIGEST || bytes[0] != VERSION then None else Some(bytes[1..])
  }

  /** A digest round-trips, and the encoding is the only accepted form of what it decodes to. */
  lemma HeadEncodingIsCanonical(head: Bytes, bytes: Bytes)
    ensures DecodeLedgerHead(Encoded(head)) == if |head| == DIGEST then Some(head) else None
    ensures DecodeLedgerHead(bytes) == Some(head) <==> bytes == Encoded(head) && |head| == DIGEST
  {
    assert Encoded(head)[1..] == head;
    if |bytes| > 0 { assert bytes == [bytes[0]] + bytes[1..]; }
  }

  // ------------------------------------------------------------------------------------------
  // Composition.

  /** Extending by two batches is extending by both at once: a member may extend its own chain. */
  lemma {:induction false} ExtendComposes(h: Hash, head: Bytes, a: seq<Text>, b: seq<Text>)
    ensures Extend(h, head, a + b) == Extend(h, Extend(h, head, a), b)
    decreases |b|
  {
    if b == [] {
      assert a + b == a;
    } else {
      ExtendComposes(h, head, a, b[..|b| - 1]);
      assert (a + b)[..|a + b| - 1] == a + b[..|b| - 1];
    }
  }

  lemma ComputeNone(h: Hash, groupID: Text)
    ensures Compute(h, groupID, []) == Genesis(h, groupID)
    ensures forall head: Bytes, id: Text :: Extend(h, head, [id]) == h(head + Frame(id))
  {
    forall head: Bytes, id: Text ensures Extend(h, head, [id]) == h(head + Frame(id)) {
      assert [id][..0] == [];
      assert Extend(h, head, []) == head;
    }
  }

  lemma ComputeComposes(h: Hash, groupID: Text, a: seq<Text>, b: seq<Text>)
    ensures Compute(h, groupID, a + b) == Extend(h, Compute(h, groupID, a), b)
  {
    ExtendComposes(h, Genesis(h, groupID), a, b);
  }

  // ------------------------------------------------------------------------------------------
  // Binding.

  datatype Evidence =
    | Agree
    | Collision(x: Bytes, y: Bytes)
    | DomainDigest(preimage: Bytes)

  /** What the last link of a chain hashed. */
  function LinkInput(h: Hash, groupID: Text, ids: seq<Text>): Bytes {
    if ids == [] then DOMAIN + Encode(groupID)
    else Compute(h, groupID, ids[..|ids| - 1]) + Frame(ids[|ids| - 1])
  }

  /** Compare two chains with one head from the end, and stop at the first link that differs. */
  function Compare(h: Hash, g1: Text, a: seq<Text>, g2: Text, b: seq<Text>): Evidence
    decreases |a| + |b|
  {
    if LinkInput(h, g1, a) != LinkInput(h, g2, b) then Collision(LinkInput(h, g1, a), LinkInput(h, g2, b))
    else if a == [] && b == [] then Agree
    else if a == [] then DomainDigest(LinkInput(h, g2, b[..|b| - 1]))
    else if b == [] then DomainDigest(LinkInput(h, g1, a[..|a| - 1]))
    else Compare(h, g1, a[..|a| - 1], g2, b[..|b| - 1])
  }

  predicate IsCollision(h: Hash, e: Evidence) {
    e.Collision? && e.x != e.y && h(e.x) == h(e.y)
  }

  predicate IsDomainDigest(h: Hash, e: Evidence) {
    e.DomainDigest? && DOMAIN <= h(e.preimage)
  }

  /** The two lists are the same up to lone surrogates, which encoding replaces. */
  predicate SameIDs(a: seq<Text>, b: seq<Text>) {
    |a| == |b| && forall i :: 0 <= i < |a| ==> Scrub(a[i]) == Scrub(b[i])
  }

  lemma HeadIsLink(h: Hash, groupID: Text, ids: seq<Text>)
    ensures Compute(h, groupID, ids) == h(LinkInput(h, groupID, ids))
  {
  }

  /** Equal links of two non-empty chains have equal heads before them and equal last IDs. */
  lemma LinkSplits(h: Hash, g1: Text, a: seq<Text>, g2: Text, b: seq<Text>)
    requires Digests(h) && a != [] && b != []
    requires LinkInput(h, g1, a) == LinkInput(h, g2, b)
    ensures Compute(h, g1, a[..|a| - 1]) == Compute(h, g2, b[..|b| - 1])
    ensures Scrub(a[|a| - 1]) == Scrub(b[|b| - 1])
  {
    var x, y := LinkInput(h, g1, a), LinkInput(h, g2, b);
    HeadIsLink(h, g1, a[..|a| - 1]);
    HeadIsLink(h, g2, b[..|b| - 1]);
    assert x[..DIGEST] == Compute(h, g1, a[..|a| - 1]) && y[..DIGEST] == Compute(h, g2, b[..|b| - 1]);
    assert x[DIGEST + 4..] == Encode(a[|a| - 1]) && y[DIGEST + 4..] == Encode(b[|b| - 1]);
    EncodeAlike(a[|a| - 1], b[|b| - 1]);
  }

  /** A genesis link equal to a later one: the head inside the later one starts with the domain separator. */
  lemma GenesisIsNoLink(h: Hash, g1: Text, g2: Text, b: seq<Text>)
    requires Digests(h) && b != [] && LinkInput(h, g1, []) == LinkInput(h, g2, b)
    ensures DOMAIN <= h(LinkInput(h, g2, b[..|b| - 1]))
  {
    HeadIsLink(h, g2, b[..|b| - 1]);
    var head := Compute(h, g2, b[..|b| - 1]);
    assert (DOMAIN + Encode(g1))[..|DOMAIN|] == DOMAIN;
    assert (head + Frame(b[|b| - 1]))[..|DOMAIN|] == head[..|DOMAIN|];
  }

  lemma SameGroup(h: Hash, g1: Text, g2: Text)
    requires LinkInput(h, g1, []) == LinkInput(h, g2, [])
    ensures Scrub(g1) == Scrub(g2)
  {
    assert (DOMAIN + Encode(g1))[|DOMAIN|..] == Encode(g1);
    assert (DOMAIN + Encode(g2))[|DOMAIN|..] == Encode(g2);
    EncodeAlike(g1, g2);
  }

  lemma NoneSame()
    ensures SameIDs([], [])
  {
  }

  lemma SameLonger(a: seq<Text>, b: seq<Text>)
    requires a != [] && b != [] && SameIDs(a[..|a| - 1], b[..|b| - 1])
    requires Scrub(a[|a| - 1]) == Scrub(b[|b| - 1])
    ensures SameIDs(a, b)
  {
    forall i | 0 <= i < |a| ensures Scrub(a[i]) == Scrub(b[i]) {
      if i < |a| - 1 {
        assert a[..|a| - 1][i] == a[i] && b[..|b| - 1][i] == b[i];
      }
    }
  }

  /** One head pins the group and the whole ordered list, or exhibits why it did not. */
  lemma {:induction false} HeadBindsList(h: Hash, g1: Text, a: seq<Text>, g2: Text, b: seq<Text>)
    requires Digests(h)
    requires Compute(h, g1, a) == Compute(h, g2, b)
    ensures var e := Compare(h, g1, a, g2, b);
            || (e.Agree? && SameIDs(a, b) && Scrub(g1) == Scrub(g2))
            || IsCollision(h, e)
            || IsDomainDigest(h, e)
    decreases |a| + |b|
  {
    hide Compute, LinkInput, Frame, Encode, Scrub, SameIDs;
    HeadIsLink(h, g1, a);
    HeadIsLink(h, g2, b);
    if LinkInput(h, g1, a) == LinkInput(h, g2, b) {
      if a == [] && b == [] {
        SameGroup(h, g1, g2);
        assert SameIDs([], []) by { NoneSame(); }
      } else if a == [] {
        GenesisIsNoLink(h, g1, g2, b);
      } else if b == [] {
        GenesisIsNoLink(h, g2, g1, a);
      } else {
        LinkSplits(h, g1, a, g2, b);
        HeadBindsList(h, g1, a[..|a| - 1], g2, b[..|b| - 1]);
        if SameIDs(a[..|a| - 1], b[..|b| - 1]) { SameLonger(a, b); }
      }
    }
  }

  /** For IDs without lone surrogates, as content digests are, the lists are equal outright. */
  lemma HeadBindsWellFormedList(h: Hash, groupID: Text, a: seq<Text>, b: seq<Text>)
    requires Digests(h) && Compute(h, groupID, a) == Compute(h, groupID, b)
    requires forall id :: id in a || id in b ==> WellFormed(id)
    ensures var e := Compare(h, groupID, a, groupID, b);
            a == b || IsCollision(h, e) || IsDomainDigest(h, e)
  {
    HeadBindsList(h, groupID, a, groupID, b);
    if SameIDs(a, b) {
      forall i | 0 <= i < |a| ensures a[i] == b[i] {
        WellFormedIffUnchanged(a[i]);
        WellFormedIffUnchanged(b[i]);
      }
    }
  }
}
