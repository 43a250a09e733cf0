/**
  The log of enacted entries a group handle holds, and what its head says about it
  (`packages/mls/src/group-handle.ts`, `packages/mls/src/ledger.ts`).
 */
module LedgerLog {
  import opened Wrappers
  import opened Buffers
  import opened Utf8
  import opened Head
  import opened Ledger
  import opened Roster
  import opened Registry
  import opened EnvelopeFold
  import opened GroupContext

  type Token = string
  type Clock = nat -> int

  /**
    What lies outside the handle: the hash, a token's content digest, DID normalisation, and token
    verification, which is a fact about the token's bytes plus a check of its time claims.
   */
  datatype World = World(
    hash: Hash,
    digest: Token -> Text,
    normalize: Normalize,
    content: Token -> Option<Verified>,
    validAt: (Token, int) -> bool)

  datatype LogEntry = LogEntry(entryID: Text, token: Token, verified: Verified)
  datatype Body = Body(token: Token, verified: Verified)

  function Verify(w: World, token: Token, now: int): Option<Verified> {
    if (w.validAt)(token, now) then (w.content)(token) else None
  }

  function IDs(ledger: seq<LogEntry>): (ids: seq<Text>)
    ensures |ids| == |ledger|
  {
    seq(|ledger|, i requires 0 <= i < |ledger| => ledger[i].entryID)
  }

  function Tokens(ledger: seq<LogEntry>): (tokens: seq<Token>)
    ensures |tokens| == |ledger|
  {
    seq(|ledger|, i requires 0 <= i < |ledger| => ledger[i].token)
  }

  function Inputs(ledger: seq<LogEntry>): (inputs: seq<FoldInput>)
    ensures |inputs| == |ledger|
  {
    seq(|ledger|, i requires 0 <= i < |ledger| => FoldInput(ledger[i].verified, ledger[i].entryID))
  }

  function Digested(w: World, tokens: seq<Token>): (ids: seq<Text>)
    ensures |ids| == |tokens|
  {
    seq(|tokens|, i requires 0 <= i < |tokens| => (w.digest)(tokens[i]))
  }

  /** A log entry as its token authenticates it. */
  predicate GenuineEntry(w: World, e: LogEntry) {
    (w.digest)(e.token) == e.entryID && (w.content)(e.token) == Some(e.verified)
  }

  ghost predicate Genuine(w: World, groupID: Text, ledger: seq<LogEntry>) {
    forall i :: 0 <= i < |ledger| ==> GenuineEntry(w, ledger[i]) && ledger[i].verified.entry.groupID == groupID
  }

  /** The bodies held are those of the log, each under its own content ID. */
  ghost predicate BodiesOf(w: World, ledger: seq<LogEntry>, bodies: map<Text, Body>) {
    && (forall id :: id in bodies ==> GenuineEntry(w, LogEntry(id, bodies[id].token, bodies[id].verified)))
    && (forall id :: id in bodies <==> id in IDs(ledger))
  }

  /** The log this head attests to. */
  predicate Attests(w: World, groupID: Text, extensions: seq<Extension>, ledger: seq<LogEntry>) {
    ReadHead(extensions) == Present(Compute(w.hash, groupID, IDs(ledger)))
  }

  // ------------------------------------------------------------------------------------------
  // The permissive ingest: tokens that do not verify now, or are for another group, are dropped.

  function Ingested(w: World, groupID: Text, token: Token, now: int): seq<LogEntry> {
    var verified := Verify(w, token, now);
    if verified.None? || verified.value.entry.groupID != groupID then []
    else [LogEntry((w.digest)(token), token, verified.value)]
  }

  function Admitted(w: World, groupID: Text, tokens: seq<Token>, clock: Clock): seq<LogEntry> {
    if tokens == [] then []
    else
      var n := |tokens| - 1;
      Admitted(w, groupID, tokens[..n], clock) + Ingested(w, groupID, tokens[n], clock(n))
  }

  /** Every token verifies at the time it is looked at, for this group. */
  ghost predicate AllVerify(w: World, groupID: Text, tokens: seq<Token>, clock: Clock) {
    forall i :: 0 <= i < |tokens| ==> Ingested(w, groupID, tokens[i], clock(i)) != []
  }

  lemma {:induction false} AdmittedIsGenuine(w: World, groupID: Text, tokens: seq<Token>, clock: Clock)
    ensures Genuine(w, groupID, Admitted(w, groupID, tokens, clock))
    ensures |Admitted(w, groupID, tokens, clock)| <= |tokens|
    ensures AllVerify(w, groupID, tokens, clock) <==> |Admitted(w, groupID, tokens, clock)| == |tokens|
    ensures AllVerify(w, groupID, tokens, clock) ==>
              Tokens(Admitted(w, groupID, tokens, clock)) == tokens
              && IDs(Admitted(w, groupID, tokens, clock)) == Digested(w, tokens)
  {
    if tokens != [] {
      var n := |tokens| - 1;
      AdmittedIsGenuine(w, groupID, tokens[..n], clock);
      AllVerifyLast(w, groupID, tokens, clock);
    }
  }

  lemma AllVerifyLast(w: World, groupID: Text, tokens: seq<Token>, clock: Clock)
    requires tokens != []
    ensures AllVerify(w, groupID, tokens, clock) <==>
            AllVerify(w, groupID, tokens[..|tokens| - 1], clock)
            && Ingested(w, groupID, tokens[|tokens| - 1], clock(|tokens| - 1)) != []
  {
  }

  // ------------------------------------------------------------------------------------------
  // Completeness.

  /** The hash did not tell these two ID lists apart, and here is why. */
  predicate Broken(h: Hash, groupID: Text, a: seq<Text>, b: seq<Text>) {
    var e := Compare(h, groupID, a, groupID, b);
    IsCollision(h, e) || IsDomainDigest(h, e)
  }

  lemma IDsOfBoth(a: seq<LogEntry>, b: seq<LogEntry>)
    ensures IDs(a + b) == IDs(a) + IDs(b)
    ensures Inputs(a + b) == Inputs(a) + Inputs(b)
    ensures Tokens(a + b) == Tokens(a) + Tokens(b)
  {
  }

  /** Appending exactly what the head was moved by keeps the log attested. */
  lemma AppendKeepsAttested(w: World, groupID: Text, before: seq<Extension>, after: seq<Extension>,
      ledger: seq<LogEntry>, enacted: seq<LogEntry>)
    requires Attests(w, groupID, before, ledger)
    requires ReadHead(after) == Present(Extend(w.hash, ReadHead(before).head, IDs(enacted)))
    ensures Attests(w, groupID, after, ledger + enacted)
  {
    IDsOfBoth(ledger, enacted);
    ComputeComposes(w.hash, groupID, IDs(ledger), IDs(enacted));
  }

  /**
    The head was moved by all the tokens, the log grew by those that still verified: the log is
    attested exactly when all of them did, unless the hash is broken on these very lists.
   */
  lemma AttestedIffAllVerify(w: World, groupID: Text, before: seq<Extension>, after: seq<Extension>,
      ledger: seq<LogEntry>, tokens: seq<Token>, clock: Clock)
    requires Digests(w.hash) && Attests(w, groupID, before, ledger)
    requires ReadHead(after) == Present(Extend(w.hash, ReadHead(before).head, Digested(w, tokens)))
    ensures var grown := ledger + Admitted(w, groupID, tokens, clock);
            || (Attests(w, groupID, after, grown) <==> AllVerify(w, groupID, tokens, clock))
            || Broken(w.hash, groupID, IDs(ledger) + Digested(w, tokens), IDs(grown))
  {
    hide Extend, Compute, Compare, Admitted, AllVerify, ReadHead;
    var kept := Admitted(w, groupID, tokens, clock);
    AdmittedIsGenuine(w, groupID, tokens, clock);
    IDsOfBoth(ledger, kept);
    ComputeComposes(w.hash, groupID, IDs(ledger), IDs(kept));
    ComputeComposes(w.hash, groupID, IDs(ledger), Digested(w, tokens));
    if Attests(w, groupID, after, ledger + kept) && |kept| < |tokens| {
      HeadBindsList(w.hash, groupID, IDs(ledger) + Digested(w, tokens), groupID, IDs(ledger + kept));
    }
  }

  /** Two logs one head attests to have the same content IDs throughout, or the hash is broken on them. */
  lemma AttestedLogIsTheLog(w: World, groupID: Text, extensions: seq<Extension>, a: seq<LogEntry>, b: seq<LogEntry>)
    requires Digests(w.hash) && Attests(w, groupID, extensions, a) && Attests(w, groupID, extensions, b)
    ensures SameIDs(IDs(a), IDs(b)) || Broken(w.hash, groupID, IDs(a), IDs(b))
  {
    HeadBindsList(w.hash, groupID, IDs(a), groupID, IDs(b));
  }
}
