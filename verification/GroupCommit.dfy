/**
  Authoring commits that enact ledger entries, and joining from an invite
  (`packages/mls/src/group-commit.ts`, `packages/mls/src/group-welcome.ts`), for groups without a
  controller. Key packages, MLS commit creation and proofs of device entries are inputs.

  An author verifies its tokens once to build the commit and again to apply them to the handle it
  derives. Verification reads the clock, so a token whose time claims lapse in between moves the
  head without joining the log: the derived handle is complete exactly when none does.
 */
module GroupCommit {
  import opened Wrappers
  import opened Buffers
  import opened Utf8
  import opened Head
  import opened Ledger
  import opened Roster
  import opened Registry
  import opened EnvelopeFold
  import opened GroupContext
  import opened LedgerLog
  import opened GroupHandle

  datatype CommitFailure =
    | NotAdmin
    | Unsigned
    | CannotEnact(reason: string, entryID: Text)
    | Unproven
    | NoLedgerHead
    | NothingToCommit
    | CreateFailed
    | WrongGroup
    | DoesNotExtend
    | NoGrant
    | RecipientMismatch
    | Incomplete
    | NotNamed

  /** The entries of the tokens as they verified when the commit was built. */
  ghost predicate Built(w: World, tokens: seq<Token>, clock: Clock, entries: seq<LogEntry>) {
    && |entries| == |tokens|
    && forall i :: 0 <= i < |tokens| ==>
         entries[i].token == tokens[i] && GenuineEntry(w, entries[i]) && (w.validAt)(tokens[i], clock(i))
  }

  /** Verify the tokens a commit would enact; any that does not verify now fails it. */
  method VerifyEnacted(w: World, tokens: seq<Token>, clock: Clock) returns (r: Option<seq<LogEntry>>)
    ensures r.None? <==> exists i :: 0 <= i < |tokens| && Verify(w, tokens[i], clock(i)).None?
    ensures r.Some? ==> Built(w, tokens, clock, r.value)
  {
    var entries: seq<LogEntry> := [];
    var i := 0;
    while i < |tokens|
      invariant 0 <= i <= |tokens|
      invariant Built(w, tokens[..i], clock, entries)
      invariant forall k :: 0 <= k < i ==> Verify(w, tokens[k], clock(k)).Some?
    {
      var verified := Verify(w, tokens[i], clock(i));
      if verified.None? { return None; }
      entries := entries + [LogEntry((w.digest)(tokens[i]), tokens[i], verified.value)];
      i := i + 1;
    }
    assert tokens[..|tokens|] == tokens;
    return Some(entries);
  }

  /** The extension list of a commit that enacts these entries: the current one with only the head moved. */
  function MovedExtensions(h: Hash, extensions: seq<Extension>, ids: seq<Text>): seq<Extension> {
    if ids == [] then extensions else WithHead(extensions, ExpectedHeadData(h, extensions, ids))
  }

  /** The one place a commit carrying entries is built; what it returns is the post-commit extension list. */
  method CommitWithEntries(group: Handle, tokens: seq<Token>, clock: Clock, committer: string,
                           requireAdmin: bool, proven: Verified -> bool, creates: bool)
    returns (r: Result<seq<Extension>, CommitFailure>, entries: seq<LogEntry>)
    requires group.Valid()
    ensures r.Ok? ==>
              && r.value == MovedExtensions(group.world.hash, group.extensions, Digested(group.world, tokens))
              && (tokens != [] ==> ReadHead(group.extensions).Present?)
              && Built(group.world, tokens, clock, entries)
              && AllEnactable(group.InScope(), Control(group.roles, group.registry), |group.ledger|, Inputs(entries))
              && (requireAdmin ==> Authority(group.InScope(), group.registry, committer) in Admins(group.roles))
    ensures r.Err? && r.error.CannotEnact? ==>
              Built(group.world, tokens, clock, entries)
              && !AllEnactable(group.InScope(), Control(group.roles, group.registry), |group.ledger|, Inputs(entries))
  {
    hide Folded, BodiesOf, AllEnactable, Admins, Authority, Admitted;
    entries := [];
    if requireAdmin && Authority(group.InScope(), group.registry, committer) !in Admins(group.roles) {
      return Err(NotAdmin), entries;
    }
    var verified := VerifyEnacted(group.world, tokens, clock);
    if verified.None? { return Err(Unsigned), entries; }
    entries := verified.value;
    var base := Control(group.roles, group.registry);
    var fold := FoldEnvelope(group.InScope(), base, Inputs(verified.value), |group.ledger|);
    if fold.Rejected? { return Err(CannotEnact(fold.reason, fold.entryID)), entries; }
    var allProven := group.AllProven(verified.value, proven);
    if !allProven { return Err(Unproven), entries; }
    if tokens != [] && !ReadHead(group.extensions).Present? { return Err(NoLedgerHead), entries; }
    if !creates { return Err(CreateFailed), entries; }
    return Ok(MovedExtensions(group.world.hash, group.extensions, Digested(group.world, tokens))), entries;
  }

  /** Derive a handle at the commit's new state and apply the enacted tokens to it; the source is untouched. */
  method Derive(group: Handle, extensions: seq<Extension>, tokens: seq<Token>, clock: Clock)
    returns (derived: Handle)
    requires group.Valid()
    ensures fresh(derived) && derived.Valid()
    ensures derived.world == group.world && derived.groupID == group.groupID && derived.anchor == group.anchor
    ensures derived.epoch == group.epoch + 1 && derived.extensions == extensions
    ensures derived.ledger == group.ledger + Admitted(group.world, group.groupID, tokens, clock)
  {
    hide Folded, BodiesOf, Admitted;
    derived := new Handle(group.world, group.groupID, group.anchor, group.epoch + 1, extensions, group.ledger);
    var _ := derived.ApplyLedgerEntries(tokens, clock);
  }

  /** The admin write path: a commit carrying only the entries it enacts. */
  method CommitLedgerEntries(group: Handle, tokens: seq<Token>, built: Clock, applied: Clock,
                             committer: string, proven: Verified -> bool, creates: bool)
    returns (r: Result<Handle, CommitFailure>)
    requires group.Valid() && Digests(group.world.hash)
    ensures r.Ok? ==>
              && fresh(r.value) && r.value.Valid() && r.value.epoch == group.epoch + 1
              && r.value.ledger == group.ledger + Admitted(group.world, group.groupID, tokens, applied)
              && r.value.extensions ==
                 MovedExtensions(group.world.hash, group.extensions, Digested(group.world, tokens))
    ensures r.Ok? && group.Complete() ==>
              || (r.value.Complete() <==> AllVerify(group.world, group.groupID, tokens, applied))
              || Broken(group.world.hash, group.groupID,
                   IDs(group.ledger) + Digested(group.world, tokens), IDs(r.value.ledger))
  {
    hide Folded, BodiesOf, Admitted, AllEnactable, AllVerify, Broken, Attests;
    if tokens == [] { return Err(NothingToCommit); }
    var commit, _ := CommitWithEntries(group, tokens, built, committer, true, proven, creates);
    if commit.Err? { return Err(commit.error); }
    var derived := Derive(group, commit.value, tokens, applied);
    if group.Complete() {
      AuthoredIffAllVerify(group.world, group.groupID, group.extensions, group.ledger, tokens, applied);
    }
    return Ok(derived);
  }

  /** Both receivers and the author move the same head; what differs is which tokens joined the log. */
  lemma AuthoredIffAllVerify(w: World, groupID: Text, extensions: seq<Extension>, ledger: seq<LogEntry>,
      tokens: seq<Token>, clock: Clock)
    requires Digests(w.hash) && Attests(w, groupID, extensions, ledger)
    ensures var grown := ledger + Admitted(w, groupID, tokens, clock);
            || (Attests(w, groupID, MovedExtensions(w.hash, extensions, Digested(w, tokens)), grown)
                <==> AllVerify(w, groupID, tokens, clock))
            || Broken(w.hash, groupID, IDs(ledger) + Digested(w, tokens), IDs(grown))
  {
    hide Compute, Compare, Broken;
    if tokens == [] {
      assert ledger + [] == ledger;
    } else {
      AuthoredIsAdmitted(w.hash, extensions, Digested(w, tokens));
      HeadMoves(w.hash, extensions, MovedExtensions(w.hash, extensions, Digested(w, tokens)), Digested(w, tokens));
      var moved := MovedExtensions(w.hash, extensions, Digested(w, tokens));
      AttestedIffAllVerify(w, groupID, extensions, moved, ledger, tokens, clock);
    }
  }

  /** Every receiver at the author's extension list admits the list the author proposes. */
  lemma AuthoredIsAdmitted(h: Hash, extensions: seq<Extension>, ids: seq<Text>)
    requires ids != []
    ensures PolicyAdmits(h, extensions, MemberCommit(Some(ids), Some(MovedExtensions(h, extensions, ids))))
  {
    AuthoredIsAdmissible(extensions, ExpectedHeadData(h, extensions, ids));
  }

  // ------------------------------------------------------------------------------------------
  // Invites.

  datatype Invite = Invite(groupID: Text, recipient: string, entries: seq<Token>)

  /** The entries an invite adds: everything past the committer's own log, which it must begin with. */
  method EntriesAddedByInvite(group: Handle, invite: Invite) returns (r: Option<seq<Token>>)
    ensures r.Some? <==> Tokens(group.ledger) <= invite.entries
    ensures r.Some? ==> Tokens(group.ledger) + r.value == invite.entries
  {
    var held := Tokens(group.ledger);
    if |invite.entries| < |held| { return None; }
    var i := 0;
    while i < |held|
      invariant 0 <= i <= |held|
      invariant held[..i] == invite.entries[..i]
    {
      if invite.entries[i] != held[i] {
        assert invite.entries[..|held|][i] != held[i];
        return None;
      }
      i := i + 1;
    }
    assert held == invite.entries[..|held|];
    return Some(invite.entries[|held|..]);
  }

  /** The subject of the last role entry for this group among the tokens. */
  method GrantedTo(w: World, groupID: Text, tokens: seq<Token>, clock: Clock) returns (subject: Option<string>)
    ensures subject.Some? ==> exists i :: 0 <= i < |tokens| && Names(w, groupID, tokens[i], clock(i), subject.value)
    ensures subject.None? ==> forall i, s :: 0 <= i < |tokens| ==> !Names(w, groupID, tokens[i], clock(i), s)
  {
    subject := None;
    var i := 0;
    while i < |tokens|
      invariant 0 <= i <= |tokens|
      invariant subject.Some? ==> exists k :: 0 <= k < i && Names(w, groupID, tokens[k], clock(k), subject.value)
      invariant subject.None? ==> forall k, s :: 0 <= k < i ==> !Names(w, groupID, tokens[k], clock(k), s)
    {
      var verified := Verify(w, tokens[i], clock(i));
      if verified.Some? && verified.value.entry.kind == ROLE_KIND && verified.value.entry.groupID == groupID {
        subject := Some(verified.value.entry.subject);
        assert Names(w, groupID, tokens[i], clock(i), subject.value);
      }
      i := i + 1;
    }
  }

  /** The token is a role entry of this group for this subject. */
  predicate Names(w: World, groupID: Text, token: Token, now: int, subject: string) {
    var verified := Verify(w, token, now);
    verified.Some? && verified.value.entry.kind == ROLE_KIND
    && verified.value.entry.groupID == groupID && verified.value.entry.subject == subject
  }

  /** Commit an invite: its added entries are enacted, and it is updated with the complete ledger. */
  method CommitInvite(group: Handle, invite: Invite, checked: Clock, built: Clock, applied: Clock,
                      committer: string, joiner: string, proven: Verified -> bool, creates: bool)
    returns (r: Result<(Handle, Invite), CommitFailure>)
    requires group.Valid() && Digests(group.world.hash)
    ensures r.Ok? ==>
              && fresh(r.value.0) && r.value.0.Valid()
              && Tokens(group.ledger) <= invite.entries
              && r.value.1 == invite.(entries := Tokens(r.value.0.ledger))
              && (var added := invite.entries[|group.ledger|..];
                  && r.value.0.ledger == group.ledger + Admitted(group.world, group.groupID, added, applied)
                  && r.value.0.extensions ==
                     MovedExtensions(group.world.hash, group.extensions, Digested(group.world, added)))
              && group.world.normalize(joiner) == group.world.normalize(invite.recipient)
    ensures r.Ok? && group.Complete() ==>
              var added := invite.entries[|group.ledger|..];
              || (r.value.0.Complete() && Tokens(r.value.0.ledger) == invite.entries
                  <==> AllVerify(group.world, group.groupID, added, applied))
              || Broken(group.world.hash, group.groupID,
                   IDs(group.ledger) + Digested(group.world, added), IDs(r.value.0.ledger))
  {
    hide Folded, BodiesOf, Admitted, AllEnactable, AllVerify, Broken, Attests, Names;
    if invite.groupID != group.groupID { return Err(WrongGroup); }
    var added := EntriesAddedByInvite(group, invite);
    if added.None? { return Err(DoesNotExtend); }
    var tokens := added.value;
    assert tokens == invite.entries[|group.ledger|..];
    var subject := GrantedTo(group.world, group.groupID, tokens, checked);
    if subject.None? { return Err(NoGrant); }
    var expected := group.world.normalize(invite.recipient);
    if group.world.normalize(subject.value) != expected { return Err(RecipientMismatch); }
    if group.world.normalize(joiner) != expected { return Err(RecipientMismatch); }
    var commit, _ := CommitWithEntries(group, tokens, built, committer, true, proven, creates);
    if commit.Err? { return Err(commit.error); }
    var derived := Derive(group, commit.value, tokens, applied);
    AdmittedIsGenuine(group.world, group.groupID, tokens, applied);
    IDsOfBoth(group.ledger, Admitted(group.world, group.groupID, tokens, applied));
    if group.Complete() {
      AuthoredIffAllVerify(group.world, group.groupID, group.extensions, group.ledger, tokens, applied);
    }
    return Ok((derived, invite.(entries := Tokens(derived.ledger))));
  }

  /** Join from an invite: the supplied entries must reproduce the joined GroupContext's head. */
  method ProcessWelcome(w: World, anchor: Anchor, epoch: nat, extensions: seq<Extension>, invite: Invite, self: string,
                        checked: Clock, applied: Clock)
    returns (r: Result<Handle, CommitFailure>)
    requires Digests(w.hash)
    ensures r.Ok? ==>
              && fresh(r.value) && r.value.Valid() && r.value.extensions == extensions
              && r.value.ledger == Admitted(w, invite.groupID, invite.entries, applied)
              && ReadHead(extensions) == Present(Compute(w.hash, invite.groupID, Digested(w, invite.entries)))
    ensures r.Ok? ==>
              || (r.value.Complete() <==> AllVerify(w, invite.groupID, invite.entries, applied))
              || Broken(w.hash, invite.groupID, Digested(w, invite.entries), IDs(r.value.ledger))
  {
    hide Folded, BodiesOf, Admitted, AllVerify, Broken, Compute, Names;
    if w.normalize(invite.recipient) != w.normalize(self) { return Err(RecipientMismatch); }
    var group := new Handle(w, invite.groupID, anchor, epoch, extensions, []);
    var authenticated := ReadHead(extensions);
    if !authenticated.Present? { return Err(NoLedgerHead); }
    var actual := ComputeHead(w.hash, invite.groupID, Digested(w, invite.entries));
    if authenticated.head != actual { return Err(Incomplete); }
    var named := NamesSelf(w, invite, self, checked);
    if !named { return Err(NotNamed); }
    var _ := group.ApplyLedgerEntries(invite.entries, applied);
    JoinedIffAllVerify(w, invite.groupID, extensions, invite.entries, applied);
    ghost var admitted := Admitted(w, invite.groupID, invite.entries, applied);
    assert [] + admitted == admitted;
    return Ok(group);
  }

  /** The invite's entry here is a role entry of its group naming this identity. */
  predicate NamesAt(w: World, invite: Invite, self: string, clock: Clock, i: nat)
    requires i < |invite.entries|
  {
    var verified := Verify(w, invite.entries[i], clock(i));
    verified.Some? && verified.value.entry.kind == ROLE_KIND && verified.value.entry.groupID == invite.groupID
    && w.normalize(verified.value.entry.subject) == w.normalize(self)
  }

  /** Some role entry of the invite names this identity. */
  method NamesSelf(w: World, invite: Invite, self: string, clock: Clock) returns (named: bool)
    ensures named <==> exists i: nat :: i < |invite.entries| && NamesAt(w, invite, self, clock, i)
  {
    named := false;
    var i := 0;
    while i < |invite.entries|
      invariant 0 <= i <= |invite.entries|
      invariant named <==> exists k: nat :: k < i && NamesAt(w, invite, self, clock, k)
    {
      var verified := Verify(w, invite.entries[i], clock(i));
      if verified.Some? && verified.value.entry.kind == ROLE_KIND
         && verified.value.entry.groupID == invite.groupID
         && w.normalize(verified.value.entry.subject) == w.normalize(self)
      {
        assert NamesAt(w, invite, self, clock, i);
        named := true;
      }
      i := i + 1;
    }
  }

  /** A joiner holds what verified of the supplied list, under the head of all of it. */
  lemma JoinedIffAllVerify(w: World, groupID: Text, extensions: seq<Extension>, tokens: seq<Token>, clock: Clock)
    requires Digests(w.hash)
    requires ReadHead(extensions) == Present(Compute(w.hash, groupID, Digested(w, tokens)))
    ensures var kept := Admitted(w, groupID, tokens, clock);
            || (Attests(w, groupID, extensions, kept) <==> AllVerify(w, groupID, tokens, clock))
            || Broken(w.hash, groupID, Digested(w, tokens), IDs(kept))
  {
    hide Compute, Compare, Admitted, AllVerify, ReadHead;
    var kept := Admitted(w, groupID, tokens, clock);
    AdmittedIsGenuine(w, groupID, tokens, clock);
    if Attests(w, groupID, extensions, kept) && |kept| < |tokens| {
      HeadBindsList(w.hash, groupID, Digested(w, tokens), groupID, IDs(kept));
    }
  }

  // ------------------------------------------------------------------------------------------
  // Agreement, and where completeness is lost.

  /** Two different tokens with one content ID. */
  predicate SameDigest(w: World, a: Token, b: Token) {
    a != b && (w.digest)(a) == (w.digest)(b)
  }

  /** Members at one head hold one log and replay one control state, unless a hash or digest is broken. */
  lemma OneHeadOneControl(w: World, groupID: Text, anchor: Anchor, extensions: seq<Extension>, a: seq<LogEntry>,
      b: seq<LogEntry>)
    requires Digests(w.hash) && forall t :: WellFormed((w.digest)(t))
    requires Genuine(w, groupID, a) && Genuine(w, groupID, b)
    requires Attests(w, groupID, extensions, a) && Attests(w, groupID, extensions, b)
    ensures var scope := Scope(w.normalize, groupID);
            || (a == b && Folded(scope, anchor, Inputs(a)) == Folded(scope, anchor, Inputs(b)))
            || Broken(w.hash, groupID, IDs(a), IDs(b))
            || exists i :: 0 <= i < |a| && i < |b| && SameDigest(w, a[i].token, b[i].token)
  {
    hide Compute, Compare, Folded;
    assert forall id :: id in IDs(a) || id in IDs(b) ==> WellFormed(id) by {
      forall i | 0 <= i < |a| ensures WellFormed(IDs(a)[i]) { assert (w.digest)(a[i].token) == a[i].entryID; }
      forall i | 0 <= i < |b| ensures WellFormed(IDs(b)[i]) { assert (w.digest)(b[i].token) == b[i].entryID; }
    }
    HeadBindsWellFormedList(w.hash, groupID, IDs(a), IDs(b));
    if IDs(a) == IDs(b) && forall i :: 0 <= i < |a| ==> a[i].token == b[i].token {
      forall i | 0 <= i < |a| ensures a[i] == b[i] {
        assert IDs(a)[i] == IDs(b)[i];
        assert GenuineEntry(w, a[i]) && GenuineEntry(w, b[i]);
      }
      assert |IDs(a)| == |a| && |IDs(b)| == |b|;
      assert a == b;
    } else if IDs(a) == IDs(b) {
      var i :| 0 <= i < |a| && a[i].token != b[i].token;
      assert IDs(a)[i] == IDs(b)[i];
      assert SameDigest(w, a[i].token, b[i].token);
    }
  }

  const LAPSED := Verified("did:a", Entry(ROLE_KIND, [], "did:b", Role(Member)))

  /** A world where every token lapses after time zero; its hash only counts its input. */
  const LAPSING := World(
    (x: Bytes) => seq(DIGEST, i requires 0 <= i < DIGEST => |x| % 256),
    (token: Token) => [],
    (did: string) => did,
    (token: Token) => Some(LAPSED),
    (token: Token, now: int) => now <= 0)

  /** A commit built while its token is valid and applied once it lapsed leaves its author incomplete. */
  lemma LapseLosesCompleteness()
    ensures var current := [Extension(HEAD_TYPE, Encoded(Genesis(LAPSING.hash, [])))];
            var moved := MovedExtensions(LAPSING.hash, current, Digested(LAPSING, ["t"]));
            && Attests(LAPSING, [], current, [])
            && AllVerify(LAPSING, [], ["t"], _ => 0)
            && !Attests(LAPSING, [], moved, Admitted(LAPSING, [], ["t"], _ => 1))
  {
    hide Genesis, Extend, Compute, DecodeLedgerHead, Encoded;
    var w := LAPSING;
    var genesis := Genesis(w.hash, []);
    var next := Extend(w.hash, genesis, [[]]);
    var current := [Extension(HEAD_TYPE, Encoded(genesis))];
    LapsingHeads();
    HeadEncodingIsCanonical(genesis, Encoded(genesis));
    HeadEncodingIsCanonical(next, Encoded(next));
    assert ReadHead(current) == Present(genesis);
    assert Digested(w, ["t"]) == [[]];
    assert ReadHead(MovedExtensions(w.hash, current, [[]])) == Present(next);
    assert Admitted(w, [], ["t"], _ => 1) == [] && IDs([]) == [];
  }

  /** From then on no member can bootstrap: the one list the head admits holds a token that no longer verifies. */
  lemma LapseBlocksBootstrap()
    ensures var current := [Extension(HEAD_TYPE, Encoded(Genesis(LAPSING.hash, [])))];
            var moved := MovedExtensions(LAPSING.hash, current, Digested(LAPSING, ["t"]));
            && ReadHead(moved) == Present(Compute(LAPSING.hash, [], Digested(LAPSING, ["t"])))
            && !AllVerify(LAPSING, [], ["t"], _ => 1)
  {
    hide Genesis, Extend, Compute, DecodeLedgerHead, Encoded;
    var w := LAPSING;
    var genesis := Genesis(w.hash, []);
    var current := [Extension(HEAD_TYPE, Encoded(genesis))];
    LapsingHeads();
    HeadEncodingIsCanonical(genesis, Encoded(genesis));
    HeadEncodingIsCanonical(Extend(w.hash, genesis, [[]]), Encoded(Extend(w.hash, genesis, [[]])));
    assert ReadHead(current) == Present(genesis);
    assert Digested(w, ["t"]) == [[]];
    ComputeComposes(w.hash, [], [], [[]]);
    var none: seq<Text>, one: seq<Text> := [], [[]];
    assert none + one == one;
    assert Ingested(w, [], "t", 1) == [];
    assert ["t"][0] == "t";
  }

  /** In that world the two heads differ: they hash inputs of 25 and 36 bytes. */
  lemma LapsingHeads()
    ensures var genesis := Genesis(LAPSING.hash, []);
            var next := Extend(LAPSING.hash, genesis, [[]]);
            && Compute(LAPSING.hash, [], []) == genesis
            && |genesis| == DIGEST && |next| == DIGEST && genesis != next
  {
    hide Extend, Compute;
    var w := LAPSING;
    var genesis := Genesis(w.hash, []);
    ComputeNone(w.hash, []);
    assert Encode([]) == [] && DOMAIN + [] == DOMAIN;
    assert genesis == w.hash(DOMAIN) && genesis[0] == 25;
    var next := Extend(w.hash, genesis, [[]]);
    assert next == w.hash(genesis + Frame([]));
    assert |genesis + Frame([])| == 36 && next[0] == 36;
  }

  /** The strict fold had accepted that very entry, so the commit was built. */
  lemma LapsedWasEnactable()
    ensures var scope := Scope(LAPSING.normalize, []);
            var entries := Admitted(LAPSING, [], ["t"], _ => 0);
            Tokens(entries) == ["t"] && AllEnactable(scope, Folded(scope, Anchor("did:a"), []), 0, Inputs(entries))
  {
    var scope := Scope(LAPSING.normalize, []);
    var entries := Admitted(LAPSING, [], ["t"], _ => 0);
    assert entries == [LogEntry([], "t", LAPSED)] by {
      assert ["t"][..0] == [];
      assert Admitted(LAPSING, [], [], _ => 0) == [];
    }
    var control := Folded(scope, Anchor("did:a"), []);
    assert control == Control(map["did:a" := Role(Admin)], NO_DEVICES);
    assert Inputs(entries)[..0] == [] && Continue(scope, control, 0, []) == control;
    assert "did:a" in Admins(control.roles);
    var granted := Granted(scope.normalize, LAPSED, control.roles);
    assert "did:a" != "did:b" by { assert "did:a"[4] != "did:b"[4]; }
    assert "did:a" in Admins(granted);
    KindsDiffer();
  }
}
