/**
  The ledger a group handle caches, through every path that changes it
  (`packages/mls/src/group-handle.ts`), for groups without a controller.

  The cached roster and registry are always the replay of the held log, and a log the GroupContext
  head attests to stays attested. MLS processing, proofs of device entries and the policy rows that
  do not concern the ledger are inputs of a receive step.
 */
module GroupHandle {
  import opened Wrappers
  import opened Buffers
  import opened Utf8
  import opened Head
  import opened Ledger
  import opened Roster
  import opened Registry
  import opened EnvelopeFold
  import opened GroupContext
  import opened LedgerLog

  datatype Failure =
    | NoHead
    | CorruptHead
    | LedgerIncomplete
    | Unverifiable
    | PersistFailed
    | MissingEntries
    | CommitRejected
    | UnknownHead

  /** An incoming commit: what its envelope decodes to, and the extension list it proposes, if any. */
  datatype Commit =
    | MemberCommit(envelope: Option<seq<Text>>, proposed: Option<seq<Extension>>)
    | ExternalCommit(proposed: Option<seq<Extension>>)

  datatype HandleState = HandleState(
    epoch: nat, extensions: seq<Extension>, ledger: seq<LogEntry>, bodies: map<Text, Body>, control: Control)

  function EnactedIDs(commit: Commit): seq<Text> {
    if commit.MemberCommit? && commit.envelope.Some? then commit.envelope.value else []
  }

  /** The policy rows about the ledger: entries must move the head, by exactly themselves. */
  predicate PolicyAdmits(h: Hash, current: seq<Extension>, commit: Commit) {
    match commit
    case ExternalCommit(proposed) => proposed.None?
    case MemberCommit(_, None) => EnactedIDs(commit) == []
    case MemberCommit(_, Some(proposed)) =>
      Admissible(current, proposed, ExpectedHeadData(h, current, EnactedIDs(commit)))
  }

  function Installed(current: seq<Extension>, commit: Commit): seq<Extension> {
    if commit.proposed.Some? then commit.proposed.value else current
  }

  /** A token the resolver returned for this ID verifies. */
  ghost predicate Fetched(w: World, fetched: Option<seq<Token>>, clock: Clock, id: Text) {
    fetched.Some? && exists i: nat :: i < |fetched.value| && FetchedAt(w, fetched.value, clock, id, i)
  }

  predicate FetchedAt(w: World, tokens: seq<Token>, clock: Clock, id: Text, i: nat)
    requires i < |tokens|
  {
    (w.digest)(tokens[i]) == id && Verify(w, tokens[i], clock(i)).Some?
  }

  class Handle {
    const world: World
    const groupID: Text
    const anchor: Anchor
    var epoch: nat
    var extensions: seq<Extension>
    var ledger: seq<LogEntry>
    var bodies: map<Text, Body>
    var roles: Roles
    var registry: DeviceRegistry

    ghost function State(): HandleState
      reads this
    {
      HandleState(epoch, extensions, ledger, bodies, Control(roles, registry))
    }

    function InScope(): Scope {
      Scope(world.normalize, groupID)
    }

    /** The cached control state is the replay of the held log. */
    ghost predicate Valid()
      reads this
    {
      && Genuine(world, groupID, ledger)
      && BodiesOf(world, ledger, bodies)
      && Control(roles, registry) == Folded(InScope(), anchor, Inputs(ledger))
    }

    /** The held log is the whole ledger the GroupContext attests to. */
    ghost predicate Complete()
      reads this
    {
      Attests(world, groupID, extensions, ledger)
    }

    /** Seed a handle from an MLS state and the log it starts from. */
    constructor (world: World, groupID: Text, anchor: Anchor, epoch: nat, extensions: seq<Extension>,
        ledger: seq<LogEntry>)
      requires Genuine(world, groupID, ledger)
      ensures this.world == world && this.groupID == groupID && this.anchor == anchor
      ensures this.epoch == epoch && this.extensions == extensions && this.ledger == ledger
      ensures Valid()
    {
      this.world, this.groupID, this.anchor := world, groupID, anchor;
      this.epoch, this.extensions, this.ledger := epoch, extensions, ledger;
      bodies := WithBodies(map[], ledger);
      var folded, bound, _ := FoldControl(Scope(world.normalize, groupID), anchor, Inputs(ledger));
      roles, registry := folded, bound;
      new;
      AllBodies(world, groupID, ledger);
    }

    /** Keep the tokens that verify now for this group, in order. */
    method Ingest(tokens: seq<Token>, clock: Clock) returns (candidates: seq<LogEntry>, appended: seq<Verified>)
      ensures candidates == Admitted(world, groupID, tokens, clock)
      ensures |appended| == |candidates|
      ensures forall k :: 0 <= k < |appended| ==> appended[k] == candidates[k].verified
    {
      candidates, appended := [], [];
      var i := 0;
      while i < |tokens|
        invariant 0 <= i <= |tokens|
        invariant candidates == Admitted(world, groupID, tokens[..i], clock)
        invariant |appended| == |candidates|
        invariant forall k :: 0 <= k < |appended| ==> appended[k] == candidates[k].verified
      {
        assert tokens[..i + 1][..i] == tokens[..i];
        var verified := Verify(world, tokens[i], clock(i));
        if verified.Some? && verified.value.entry.groupID == groupID {
          candidates := candidates + [LogEntry((world.digest)(tokens[i]), tokens[i], verified.value)];
          appended := appended + [verified.value];
        }
        i := i + 1;
      }
      assert tokens[..|tokens|] == tokens;
    }

    /** Ingest tokens: the valid ones are appended in order, repeats included, and the log refolded. */
    method ApplyLedgerEntries(tokens: seq<Token>, clock: Clock) returns (appended: seq<Verified>)
      requires Valid()
      modifies this`ledger, this`bodies, this`roles, this`registry
      ensures Valid()
      ensures ledger == old(ledger) + Admitted(world, groupID, tokens, clock)
      ensures |appended| == |ledger| - |old(ledger)|
      ensures forall i :: 0 <= i < |appended| ==> appended[i] == ledger[|old(ledger)| + i].verified
    {
      hide Folded, BodiesOf, Genuine, Admitted, AllVerify;
      var candidates;
      candidates, appended := Ingest(tokens, clock);
      AdmittedIsGenuine(world, groupID, tokens, clock);
      Grown(world, groupID, ledger, bodies, candidates);
      var grown := ledger + candidates;
      var folded, bound, _ := FoldControl(InScope(), anchor, Inputs(grown));
      ledger, bodies := grown, WithBodies(bodies, candidates);
      roles, registry := folded, bound;
    }

    /** Whether the held log is the whole ledger; an absent head attests to none. */
    method IsLedgerComplete() returns (r: Result<bool, Failure>)
      requires Valid()
      ensures r == if ReadHead(extensions).Corrupt? then Err(CorruptHead) else Ok(Complete())
    {
      match ReadHead(extensions)
      case Corrupt => return Err(CorruptHead);
      case Absent => return Ok(false);
      case Present(head) =>
        var actual := ComputeHead(world.hash, groupID, IDs(ledger));
        return Ok(head == actual);
    }

    /** Verify every token for this group, or fail. */
    method VerifyAll(tokens: seq<Token>, clock: Clock) returns (r: Option<seq<LogEntry>>)
      ensures r.Some? <==> AllVerify(world, groupID, tokens, clock)
      ensures r.Some? ==> r.value == Admitted(world, groupID, tokens, clock)
    {
      var log: seq<LogEntry> := [];
      var i := 0;
      while i < |tokens|
        invariant 0 <= i <= |tokens|
        invariant log == Admitted(world, groupID, tokens[..i], clock)
        invariant AllVerify(world, groupID, tokens[..i], clock)
      {
        AllVerifyLast(world, groupID, tokens[..i + 1], clock);
        assert tokens[..i + 1][..i] == tokens[..i];
        var verified := Verify(world, tokens[i], clock(i));
        if verified.None? || verified.value.entry.groupID != groupID {
          assert Ingested(world, groupID, tokens[i], clock(i)) == [];
          return None;
        }
        log := log + [LogEntry((world.digest)(tokens[i]), tokens[i], verified.value)];
        i := i + 1;
      }
      assert tokens[..|tokens|] == tokens;
      return Some(log);
    }

    /** Install a gathered ledger, checked against the authenticated head before anything is folded. */
    method BootstrapLedger(tokens: seq<Token>, clock: Clock, persists: bool) returns (r: Result<(), Failure>)
      requires Valid()
      modifies this
      ensures Valid()
      ensures r.Err? ==> State() == old(State())
      ensures r.Ok? <==>
                && ReadHead(old(extensions)) == Present(Compute(world.hash, groupID, Digested(world, tokens)))
                && AllVerify(world, groupID, tokens, clock)
                && persists
      ensures r.Ok? ==>
                && Complete() && Tokens(ledger) == tokens
                && epoch == old(epoch) && extensions == old(extensions)
    {
      hide Compute, Folded, BodiesOf, Genuine, AllVerify, Admitted, ReadHead;
      match ReadHead(extensions) {
        case Absent => return Err(NoHead);
        case Corrupt => return Err(CorruptHead);
        case Present(head) =>
          var actual := ComputeHead(world.hash, groupID, Digested(world, tokens));
          if head != actual { return Err(LedgerIncomplete); }
      }
      AdmittedIsGenuine(world, groupID, tokens, clock);
      var verified := VerifyAll(tokens, clock);
      if verified.None? { return Err(Unverifiable); }
      var log := verified.value;
      var previous, held := ledger, bodies;
      var heldRoles, heldRegistry := roles, registry;
      var folded, bound, _ := FoldControl(InScope(), anchor, Inputs(log));
      AllBodies(world, groupID, log);
      ledger, bodies := log, WithBodies(map[], log);
      roles, registry := folded, bound;
      if !persists {
        ledger, bodies := previous, held;
        roles, registry := heldRoles, heldRegistry;
        return Err(PersistFailed);
      }
      return Ok(());
    }

    /** Take in the fetched bodies that verify now, each under an ID still missing. */
    method Fetch(ids: seq<Text>, tokens: seq<Token>, clock: Clock) returns (found: map<Text, Body>)
      ensures forall id :: id in found ==> GenuineEntry(world, LogEntry(id, found[id].token, found[id].verified))
      ensures forall id :: id in found <==> id in ids && id !in bodies && Fetched(world, Some(tokens), clock, id)
    {
      found := map[];
      var i := 0;
      while i < |tokens|
        invariant 0 <= i <= |tokens|
        invariant forall id :: id in found ==> GenuineEntry(world, LogEntry(id, found[id].token, found[id].verified))
        invariant forall id :: id in found <==>
                    id in ids && id !in bodies && exists k: nat :: k < i && FetchedAt(world, tokens, clock, id, k)
      {
        var id := (world.digest)(tokens[i]);
        ghost var before := found;
        if id !in found && id !in bodies && id in ids {
          var verified := Verify(world, tokens[i], clock(i));
          if verified.Some? {
            assert FetchedAt(world, tokens, clock, id, i);
            found := found[id := Body(tokens[i], verified.value)];
          }
        }
        forall d
          ensures d in found <==>
                    d in ids && d !in bodies && exists k: nat :: k < i + 1 && FetchedAt(world, tokens, clock, d, k)
        {
          assert d in before <==>
            d in ids && d !in bodies && exists k: nat :: k < i && FetchedAt(world, tokens, clock, d, k);
        }
        i := i + 1;
      }
    }

    /** Find a body for each entry an envelope names: held, or fetched and verified now. */
    method Resolve(ids: seq<Text>, fetched: Option<seq<Token>>,
        clock: Clock) returns (r: Result<seq<LogEntry>, Failure>)
      requires Valid()
      ensures r.Ok? <==> forall id :: id in ids ==> id in bodies || Fetched(world, fetched, clock, id)
      ensures r.Ok? ==> IDs(r.value) == ids && forall i :: 0 <= i < |r.value| ==> GenuineEntry(world, r.value[i])
      ensures r.Err? ==> r.error == MissingEntries
    {
      hide Folded, Genuine, Fetched;
      var held := bodies;
      assert forall id :: id in held ==> GenuineEntry(world, LogEntry(id, held[id].token, held[id].verified));
      var resolved := held;
      if id :| id in ids && id !in held {
        if fetched.None? {
          assert !Fetched(world, fetched, clock, id) by { NoneFetched(world, clock, id); }
          return Err(MissingEntries);
        }
        var found := Fetch(ids, fetched.value, clock);
        resolved := held + found;
      }
      if id :| id in ids && id !in resolved {
        return Err(MissingEntries);
      }
      return Ok(Ordered(ids, resolved));
    }

    /** Judge and apply a received commit; a refused or unpersisted one leaves the handle as it was. */
    method Receive(commit: Commit, fetched: Option<seq<Token>>, clock: Clock,
                   proven: Verified -> bool, otherwise: bool, persists: bool)
      returns (r: Result<seq<Verified>, Failure>)
      requires Valid() && Digests(world.hash)
      modifies this
      ensures Valid()
      ensures r.Err? ==> State() == old(State())
      ensures r.Ok? ==>
                && epoch == old(epoch) + 1
                && extensions == Installed(old(extensions), commit)
                && PolicyAdmits(world.hash, old(extensions), commit)
                && old(ledger) <= ledger
                && var enacted := ledger[|old(ledger)|..];
                && IDs(enacted) == EnactedIDs(commit)
                && AllEnactable(InScope(), old(Control(roles, registry)), |old(ledger)|, Inputs(enacted))
                && r.value == Consumers(Inputs(enacted))
      ensures r.Ok? && old(Complete()) ==> Complete()
    {
      hide BodiesOf, Genuine, Folded, AllEnactable, Admissible, Extend, PolicyAdmits, Installed, Consumers, Attests;
      var ordered: seq<LogEntry> := [];
      if commit.MemberCommit? {
        if commit.envelope.None? { return Err(CommitRejected); }
        var resolution := Resolve(commit.envelope.value, fetched, clock);
        if resolution.Err? { return Err(resolution.error); }
        ordered := resolution.value;
      }
      var fold := FoldEnvelope(InScope(), Control(roles, registry), Inputs(ordered), |ledger|);
      if fold.Rejected? { return Err(CommitRejected); }
      var allProven := AllProven(ordered, proven);
      if !allProven || !otherwise || !PolicyAdmits(world.hash, extensions, commit) { return Err(CommitRejected); }
      ghost var was, before := ledger, extensions;
      EnactedGrows(world, groupID, anchor, ledger, bodies, ordered);
      assert Complete() ==> Attests(world, groupID, Installed(extensions, commit), ledger + ordered) by {
        if Complete() { CommitKeepsAttested(world, groupID, extensions, commit, ledger, ordered); }
      }
      var previous := (epoch, extensions, ledger, bodies, roles, registry);
      epoch, extensions := epoch + 1, Installed(extensions, commit);
      var grown := ledger + ordered;
      var _, bound, _ := FoldControl(InScope(), anchor, Inputs(grown));
      ledger, bodies := grown, WithBodies(bodies, ordered);
      roles, registry := fold.control.roles, bound;
      if !persists {
        epoch, extensions, ledger := previous.0, previous.1, previous.2;
        bodies, roles, registry := previous.3, previous.4, previous.5;
        return Err(PersistFailed);
      }
      assert ledger[|was|..] == ordered;
      return Ok(fold.surfaced);
    }

    /** Every device entry's proof holds. */
    method AllProven(entries: seq<LogEntry>, proven: Verified -> bool) returns (r: bool)
      ensures r <==> forall e :: e in entries && e.verified.entry.kind == DEVICE_KIND ==> proven(e.verified)
    {
      var i := 0;
      while i < |entries|
        invariant 0 <= i <= |entries|
        invariant forall e :: e in entries[..i] && e.verified.entry.kind == DEVICE_KIND ==> proven(e.verified)
      {
        if entries[i].verified.entry.kind == DEVICE_KIND && !proven(entries[i].verified) {
          assert entries[i] in entries;
          return false;
        }
        assert entries[..i + 1] == entries[..i] + [entries[i]];
        i := i + 1;
      }
      assert entries[..|entries|] == entries;
      return true;
    }

    /** This is the registry replayed from the first `n` entries, which the head attests to. */
    ghost predicate IsRegistryOf(bound: DeviceRegistry, head: Bytes, n: nat)
      requires n <= |ledger|
      reads this
    {
      && Compute(world.hash, groupID, IDs(ledger[..n])) == head
      && bound == Folded(InScope(), anchor, Inputs(ledger[..n])).registry
    }

    /** The registry as of an earlier head: the replay of the shortest prefix that head attests to. */
    method RegistryAt(head: Bytes) returns (r: Result<DeviceRegistry, Failure>)
      requires Valid()
      ensures r.Err? ==> forall n :: 0 <= n <= |ledger| ==> Compute(world.hash, groupID, IDs(ledger[..n])) != head
      ensures r.Ok? ==> exists n: nat :: n <= |ledger| && IsRegistryOf(r.value, head, n)
    {
      hide Folded, Compute, Extend, Genuine, BodiesOf;
      var held := Genesis(world.hash, groupID);
      ComputeNone(world.hash, groupID);
      assert IDs(ledger[..0]) == [];
      var length := 0;
      while length < |ledger| && held != head
        modifies {}
        invariant 0 <= length <= |ledger|
        invariant held == Compute(world.hash, groupID, IDs(ledger[..length]))
        invariant forall n :: 0 <= n < length ==> Compute(world.hash, groupID, IDs(ledger[..n])) != head
      {
        var id := ledger[length].entryID;
        held := ExtendHead(world.hash, held, [id]);
        assert IDs(ledger[..length + 1]) == IDs(ledger[..length]) + [id];
        ComputeComposes(world.hash, groupID, IDs(ledger[..length]), [id]);
        length := length + 1;
      }
      if held != head { return Err(UnknownHead); }
      var _, bound, _ := FoldControl(InScope(), anchor, Inputs(ledger[..length]));
      assert IsRegistryOf(bound, head, length);
      return Ok(bound);
    }
  }

  lemma NoneFetched(w: World, clock: Clock, id: Text)
    ensures !Fetched(w, None, clock, id)
  {
  }

  /** The bodies of an envelope's entries, in the order it names them. */
  function Ordered(ids: seq<Text>, bodies: map<Text, Body>): (r: seq<LogEntry>)
    requires forall id :: id in ids ==> id in bodies
    ensures IDs(r) == ids
  {
    seq(|ids|, i requires 0 <= i < |ids| => LogEntry(ids[i], bodies[ids[i]].token, bodies[ids[i]].verified))
  }

  /** No two prefixes of a log share a head, unless the hash is broken on them. */
  lemma PrefixesHaveOwnHeads(w: World, groupID: Text, ledger: seq<LogEntry>, m: nat, n: nat)
    requires Digests(w.hash) && m < n <= |ledger|
    ensures Compute(w.hash, groupID, IDs(ledger[..m])) != Compute(w.hash, groupID, IDs(ledger[..n]))
         || Broken(w.hash, groupID, IDs(ledger[..m]), IDs(ledger[..n]))
  {
    hide Compute, Compare;
    if Compute(w.hash, groupID, IDs(ledger[..m])) == Compute(w.hash, groupID, IDs(ledger[..n])) {
      HeadBindsList(w.hash, groupID, IDs(ledger[..m]), groupID, IDs(ledger[..n]));
    }
  }

  // ------------------------------------------------------------------------------------------
  // The pieces of each step.

  function WithBodies(bodies: map<Text, Body>, entries: seq<LogEntry>): map<Text, Body> {
    if entries == [] then bodies
    else
      var last := entries[|entries| - 1];
      WithBodies(bodies, entries[..|entries| - 1])[last.entryID := Body(last.token, last.verified)]
  }

  lemma {:induction false} WithBodiesHolds(w: World, ledger: seq<LogEntry>, bodies: map<Text, Body>,
      entries: seq<LogEntry>)
    requires BodiesOf(w, ledger, bodies)
    requires forall i :: 0 <= i < |entries| ==> GenuineEntry(w, entries[i])
    ensures BodiesOf(w, ledger + entries, WithBodies(bodies, entries))
  {
    if entries == [] {
      assert ledger + entries == ledger;
    } else {
      var n := |entries| - 1;
      WithBodiesHolds(w, ledger, bodies, entries[..n]);
      var whole := ledger + entries;
      assert whole == (ledger + entries[..n]) + [entries[n]];
      assert IDs(whole) == IDs(ledger + entries[..n]) + [entries[n].entryID];
    }
  }

  lemma AllBodies(w: World, groupID: Text, ledger: seq<LogEntry>)
    requires Genuine(w, groupID, ledger)
    ensures BodiesOf(w, ledger, WithBodies(map[], ledger))
  {
    WithBodiesHolds(w, [], map[], ledger);
    assert [] + ledger == ledger;
  }

  /** Appending genuine entries keeps the log and its bodies genuine. */
  lemma Grown(w: World, groupID: Text, ledger: seq<LogEntry>, bodies: map<Text, Body>, entries: seq<LogEntry>)
    requires Genuine(w, groupID, ledger) && BodiesOf(w, ledger, bodies) && Genuine(w, groupID, entries)
    ensures Genuine(w, groupID, ledger + entries)
    ensures BodiesOf(w, ledger + entries, WithBodies(bodies, entries))
  {
    WithBodiesHolds(w, ledger, bodies, entries);
  }

  /** An accepted envelope's entries join the log, and its candidate state is the replay of the longer log. */
  lemma EnactedGrows(w: World, groupID: Text, anchor: Anchor, ledger: seq<LogEntry>, bodies: map<Text, Body>,
      entries: seq<LogEntry>)
    requires Genuine(w, groupID, ledger) && BodiesOf(w, ledger, bodies)
    requires forall i :: 0 <= i < |entries| ==> GenuineEntry(w, entries[i])
    requires AllEnactable(Scope(w.normalize, groupID), Folded(Scope(w.normalize, groupID), anchor, Inputs(ledger)),
                          |ledger|, Inputs(entries))
    ensures Genuine(w, groupID, ledger + entries)
    ensures BodiesOf(w, ledger + entries, WithBodies(bodies, entries))
    ensures Folded(Scope(w.normalize, groupID), anchor, Inputs(ledger + entries)) ==
            Continue(Scope(w.normalize, groupID), Folded(Scope(w.normalize, groupID), anchor, Inputs(ledger)),
                     |ledger|, Inputs(entries))
  {
    hide BodiesOf, Folded, Continue;
    assert Genuine(w, groupID, entries) by {
      forall i | 0 <= i < |entries| ensures entries[i].verified.entry.groupID == groupID {
        assert Inputs(entries)[i].verified == entries[i].verified;
      }
    }
    Grown(w, groupID, ledger, bodies, entries);
    IDsOfBoth(ledger, entries);
    StrictIsReplay(Scope(w.normalize, groupID), anchor, Inputs(ledger), Inputs(entries));
  }

  /** An admitted commit keeps an attested log attested. */
  lemma CommitKeepsAttested(w: World, groupID: Text, current: seq<Extension>, commit: Commit,
      ledger: seq<LogEntry>, enacted: seq<LogEntry>)
    requires Digests(w.hash) && Attests(w, groupID, current, ledger)
    requires PolicyAdmits(w.hash, current, commit) && IDs(enacted) == EnactedIDs(commit)
    ensures Attests(w, groupID, Installed(current, commit), ledger + enacted)
  {
    hide Admissible, Compute;
    if commit.proposed.Some? {
      assert commit.MemberCommit?;
      HeadMoves(w.hash, current, commit.proposed.value, IDs(enacted));
      AppendKeepsAttested(w, groupID, current, commit.proposed.value, ledger, enacted);
    } else {
      assert enacted == [] && ledger + enacted == ledger;
    }
  }
}
