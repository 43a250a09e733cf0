/**
  The device registry and the one-pass fold of the whole control ledger
  (`packages/mls/src/registry.ts`), for groups without a controller.
 */
module Registry {
  import opened Wrappers
  import opened Ledger
  import opened Roster
  import opened Utf8

  datatype DeviceRecord = DeviceRecord(
    controller: string, active: bool, name: Option<string>, reset: bool, cascadedFrom: Option<string>)

  datatype Announced = Announced(logLength: int, headDigest: string)

  datatype DeviceRegistry = DeviceRegistry(devices: map<string, DeviceRecord>, beacons: map<string, Announced>)

  datatype Control = Control(roles: Roles, registry: DeviceRegistry)

  /** What a fold needs to know besides the entries. */
  datatype Scope = Scope(normalize: Normalize, groupID: Text)

  const NO_DEVICES := DeviceRegistry(map[], map[])

  predicate HasProof(op: DeviceOp) {
    op.Reset? || op.ControllerLog? || op.Seed? || (op.Revoke? && op.proof)
  }

  /** Only reset removal without a cascade permits a later admission. */
  predicate IsResetOnly(record: DeviceRecord) {
    !record.active && record.reset && record.cascadedFrom.None?
  }

  function Rebound(registry: DeviceRegistry, subject: string, controller: string,
      name: Option<string>): DeviceRegistry {
    var devices := registry.devices;
    if subject in devices && !devices[subject].active && !IsResetOnly(devices[subject]) then registry
    else
      var kept := if name.Some? then name else if subject in devices then devices[subject].name else None;
      registry.(devices := devices[subject := DeviceRecord(controller, true, kept, false, None)])
  }

  /** The registry fold step. Without a controller, a reset, a clock, a log and a seed change nothing. */
  function RegistryApply(scope: Scope, entry: Entry, registry: DeviceRegistry): DeviceRegistry
    requires entry.value.Device?
  {
    var subject := (scope.normalize)(entry.subject);
    var devices := registry.devices;
    match entry.value.op
    case Register(controller, name) => Rebound(registry, subject, (scope.normalize)(controller), name)
    case AddDevice(controller, name) => Rebound(registry, subject, (scope.normalize)(controller), name)
    case Revoke(_) =>
      if subject !in devices then registry
      else registry.(devices := devices[subject := devices[subject].(active := false, reset := false)])
    case Label(name) =>
      if subject !in devices || name.None? then registry
      else registry.(devices := devices[subject := devices[subject].(name := name)])
    case Beacon(logLength, headDigest) =>
      registry.(beacons := registry.beacons[subject := Announced(logLength, headDigest)])
    case Reset => registry
    case Clock => registry
    case ControllerLog => registry
    case Seed => registry
  }

  /** An active binding resolves an issuer to its controller; anything else to the issuer itself. */
  function Authority(scope: Scope, registry: DeviceRegistry, issuer: string): string {
    var did := (scope.normalize)(issuer);
    if did in registry.devices && registry.devices[did].active then registry.devices[did].controller else did
  }

  // ------------------------------------------------------------------------------------------
  // The permissive replay: an entry that is off is dropped, never thrown.

  datatype Verdict = Applied(control: Control) | Dropped(reason: string)

  function Judge(scope: Scope, control: Control, position: nat, verified: Verified): Verdict {
    var entry := verified.entry;
    if entry.groupID != scope.groupID then Dropped("cross-group entry")
    else if entry.kind == DEVICE_KIND then
      if !entry.value.Device? then Dropped("malformed kumiai.device value")
      else if entry.value.op.Seed? && position != 0 then Dropped("invalid lifecycle proof")
      else Applied(control.(registry := RegistryApply(scope, entry, control.registry)))
    else if entry.kind != ROLE_KIND then Dropped("unrelated type")
    else if !entry.value.Role? then Dropped("invalid role value")
    else if Authority(scope, control.registry, verified.issuer) !in Admins(control.roles) then Dropped("not admin")
    else
      var next := Granted(scope.normalize, verified, control.roles);
      if Admins(next) == {} then Dropped("would empty the admin set") else Applied(control.(roles := next))
  }

  function Judged(scope: Scope, control: Control, position: nat, verified: Verified): Control {
    var verdict := Judge(scope, control, position, verified);
    if verdict.Applied? then verdict.control else control
  }

  /** The control state after more entries, the first of them at position `from` of the ledger. */
  function Continue(scope: Scope, control: Control, from: nat, entries: seq<FoldInput>): Control {
    if entries == [] then control
    else
      var n := |entries| - 1;
      Judged(scope, Continue(scope, control, from, entries[..n]), from + n, entries[n].verified)
  }

  function Seeded(scope: Scope, anchor: Anchor): Control {
    Control(map[(scope.normalize)(anchor.creatorDID) := Role(Admin)], NO_DEVICES)
  }

  function Folded(scope: Scope, anchor: Anchor, entries: seq<FoldInput>): Control {
    Continue(scope, Seeded(scope, anchor), 0, entries)
  }

  /** What the replay dropped, in order, each judged at its own position. */
  function DroppedBy(scope: Scope, anchor: Anchor, entries: seq<FoldInput>): seq<Drop> {
    if entries == [] then []
    else
      var n := |entries| - 1;
      var verdict := Judge(scope, Folded(scope, anchor, entries[..n]), n, entries[n].verified);
      DroppedBy(scope, anchor, entries[..n]) +
      (if verdict.Dropped? then [Drop(entries[n].entryID, verdict.reason)] else [])
  }

  /** Replay the whole ledger into both projections in one ordered pass. */
  method FoldControl(scope: Scope, anchor: Anchor, entries: seq<FoldInput>)
    returns (roles: Roles, registry: DeviceRegistry, drops: seq<Drop>)
    ensures Control(roles, registry) == Folded(scope, anchor, entries)
    ensures drops == DroppedBy(scope, anchor, entries)
  {
    roles, registry, drops := map[(scope.normalize)(anchor.creatorDID) := Role(Admin)], NO_DEVICES, [];
    var position := 0;
    while position < |entries|
      invariant 0 <= position <= |entries|
      invariant Control(roles, registry) == Folded(scope, anchor, entries[..position])
      invariant drops == DroppedBy(scope, anchor, entries[..position])
    {
      var input := entries[position];
      var entry := input.verified.entry;
      assert entries[..position + 1][..position] == entries[..position];
      var reason := "";
      if entry.groupID != scope.groupID {
        reason := "cross-group entry";
      } else if entry.kind == DEVICE_KIND {
        if !entry.value.Device? {
          reason := "malformed kumiai.device value";
        } else if entry.value.op.Seed? && position != 0 {
          reason := "invalid lifecycle proof";
        } else {
          registry := RegistryApply(scope, entry, registry);
        }
      } else if entry.kind != ROLE_KIND {
        reason := "unrelated type";
      } else if !entry.value.Role? {
        reason := "invalid role value";
      } else if Authority(scope, registry, input.verified.issuer) !in Admins(roles) {
        reason := "not admin";
      } else {
        var next := Granted(scope.normalize, input.verified, roles);
        var admins := AdminCount(next);
        if admins == 0 {
          reason := "would empty the admin set";
        } else {
          roles := next;
        }
      }
      if reason != "" {
        drops := drops + [Drop(input.entryID, reason)];
      }
      position := position + 1;
    }
    assert entries[..|entries|] == entries;
  }

  // ------------------------------------------------------------------------------------------
  // Replay composes.

  lemma {:induction false} ContinueComposes(scope: Scope, control: Control, from: nat, a: seq<FoldInput>,
      b: seq<FoldInput>)
    ensures Continue(scope, control, from, a + b) == Continue(scope, Continue(scope, control, from, a), from + |a|, b)
    decreases |b|
  {
    if b == [] {
      assert a + b == a;
    } else {
      ContinueComposes(scope, control, from, a, b[..|b| - 1]);
      assert (a + b)[..|a + b| - 1] == a + b[..|b| - 1];
    }
  }

  lemma FoldComposes(scope: Scope, anchor: Anchor, a: seq<FoldInput>, b: seq<FoldInput>)
    ensures Folded(scope, anchor, a + b) == Continue(scope, Folded(scope, anchor, a), |a|, b)
  {
    ContinueComposes(scope, Seeded(scope, anchor), 0, a, b);
  }

  // ------------------------------------------------------------------------------------------
  // Provenance through device bindings, and agreement with the roster fold.

  function ControlMove(scope: Scope, anchor: Anchor, entries: seq<FoldInput>, i: nat): Move
    requires i < |entries|
  {
    var v := entries[i].verified;
    var before := Folded(scope, anchor, entries[..i]);
    if v.entry.kind == ROLE_KIND && Judge(scope, before, i, v).Applied?
    then Grant(Authority(scope, before.registry, v.issuer), (scope.normalize)(v.entry.subject), v.entry.value)
    else Skip
  }

  function ControlMoves(scope: Scope, anchor: Anchor, entries: seq<FoldInput>): seq<Move> {
    seq(|entries|, i requires 0 <= i < |entries| => ControlMove(scope, anchor, entries, i))
  }

  lemma ControlMovesPrefix(scope: Scope, anchor: Anchor, entries: seq<FoldInput>, n: nat)
    requires n <= |entries|
    ensures ControlMoves(scope, anchor, entries[..n]) == ControlMoves(scope, anchor, entries)[..n]
  {
    forall i | 0 <= i < n ensures entries[..n][..i] == entries[..i] {
    }
  }

  lemma {:induction false} RolesArePlayed(scope: Scope, anchor: Anchor, entries: seq<FoldInput>)
    ensures Folded(scope, anchor, entries).roles
         == Played((scope.normalize)(anchor.creatorDID), ControlMoves(scope, anchor, entries))
  {
    if entries != [] {
      var n := |entries| - 1;
      RolesArePlayed(scope, anchor, entries[..n]);
      ControlMovesPrefix(scope, anchor, entries, n);
      KindsDiffer();
    }
  }

  lemma ControlMovesAuthorized(scope: Scope, anchor: Anchor, entries: seq<FoldInput>)
    ensures Authorized((scope.normalize)(anchor.creatorDID), ControlMoves(scope, anchor, entries))
  {
    var root, moves := (scope.normalize)(anchor.creatorDID), ControlMoves(scope, anchor, entries);
    forall i | 0 <= i < |moves| && moves[i].Grant?
      ensures moves[i].granter in Admins(Played(root, moves[..i]))
      ensures Admins(Played(root, moves[..i + 1])) != {}
    {
      RolesArePlayed(scope, anchor, entries[..i]);
      RolesArePlayed(scope, anchor, entries[..i + 1]);
      ControlMovesPrefix(scope, anchor, entries, i);
      ControlMovesPrefix(scope, anchor, entries, i + 1);
      assert entries[..i + 1][..i] == entries[..i];
      KindsDiffer();
    }
  }

  /** Every admin of the replayed ledger has a grant chain to the root, through bindings active at each link. */
  lemma ControlProvenance(scope: Scope, anchor: Anchor, entries: seq<FoldInput>, did: string)
    ensures var root, moves := (scope.normalize)(anchor.creatorDID), ControlMoves(scope, anchor, entries);
            var roles := Folded(scope, anchor, entries).roles;
            && Admins(roles) != {}
            && (did in Admins(roles) ==> exists chain :: Chain(root, moves, did, chain))
  {
    var root, moves := (scope.normalize)(anchor.creatorDID), ControlMoves(scope, anchor, entries);
    RolesArePlayed(scope, anchor, entries);
    ControlMovesAuthorized(scope, anchor, entries);
    NeverAdminless(root, moves);
    if did in Admins(Played(root, moves)) { Provenance(root, moves, did); }
  }

  /** A ledger without device entries. */
  predicate NoDevices(entries: seq<FoldInput>) {
    forall i :: 0 <= i < |entries| ==> entries[i].verified.entry.kind != DEVICE_KIND
  }

  /** After `i` entries the roster fold and the control fold have the same roles, and no device is bound. */
  ghost predicate AgreeAt(scope: Scope, anchor: Anchor, entries: seq<FoldInput>, i: nat)
    requires i <= |entries|
  {
    Folded(scope, anchor, entries[..i])
      == Control(Replay(RoleReducer(scope.normalize, scope.groupID), anchor, entries[..i]), NO_DEVICES)
  }

  /** The roster fold takes entry `i`, whose value is no permission. */
  ghost predicate TakesMalformed(scope: Scope, anchor: Anchor, entries: seq<FoldInput>, i: nat)
    requires i < |entries|
  {
    var reducer := RoleReducer(scope.normalize, scope.groupID);
    && Accepts(reducer, entries[i].verified, Replay(reducer, anchor, entries[..i]))
    && !entries[i].verified.entry.value.Role?
  }

  ghost predicate OnlyPermissions(roles: Roles) {
    forall did :: did in roles ==> roles[did].Role?
  }

  /** The control fold holds permissions only. */
  lemma {:induction false} FoldedOnlyPermissions(scope: Scope, anchor: Anchor, entries: seq<FoldInput>)
    ensures OnlyPermissions(Folded(scope, anchor, entries).roles)
  {
    if entries != [] {
      var n := |entries| - 1;
      FoldedOnlyPermissions(scope, anchor, entries[..n]);
      JudgedOnlyPermissions(scope, Folded(scope, anchor, entries[..n]), n, entries[n].verified);
    }
  }

  lemma JudgedOnlyPermissions(scope: Scope, control: Control, position: nat, verified: Verified)
    requires OnlyPermissions(control.roles)
    ensures OnlyPermissions(Judged(scope, control, position, verified).roles)
  {
  }

  lemma AgreesNext(scope: Scope, anchor: Anchor, entries: seq<FoldInput>, i: nat)
    requires i < |entries| && NoDevices(entries) && AgreeAt(scope, anchor, entries, i)
    ensures AgreeAt(scope, anchor, entries, i + 1) <==> !TakesMalformed(scope, anchor, entries, i)
  {
    assert entries[..i + 1][..i] == entries[..i];
    FoldedOnlyPermissions(scope, anchor, entries[..i + 1]);
    if TakesMalformed(scope, anchor, entries, i) {
      var roles := Replay(RoleReducer(scope.normalize, scope.groupID), anchor, entries[..i + 1]);
      var subject := (scope.normalize)(entries[i].verified.entry.subject);
      assert subject in roles && !roles[subject].Role?;
    }
  }

  /**
    On a ledger without device entries the two folds agree all along exactly when the roster fold
    takes no entry whose value is no permission. The control fold drops those; the roster fold lets
    one demote its subject.
   */
  lemma {:induction false} FoldsAgree(scope: Scope, anchor: Anchor, entries: seq<FoldInput>, n: nat)
    requires NoDevices(entries) && n <= |entries|
    ensures (forall i :: 0 <= i <= n ==> AgreeAt(scope, anchor, entries, i))
       <==> (forall i :: 0 <= i < n ==> !TakesMalformed(scope, anchor, entries, i))
  {
    hide AgreeAt, TakesMalformed;
    if n == 0 {
      AgreeAtStart(scope, anchor, entries);
    } else {
      FoldsAgree(scope, anchor, entries, n - 1);
      if AgreeAt(scope, anchor, entries, n - 1) { AgreesNext(scope, anchor, entries, n - 1); }
    }
  }

  lemma AgreeAtStart(scope: Scope, anchor: Anchor, entries: seq<FoldInput>)
    ensures AgreeAt(scope, anchor, entries, 0)
  {
  }

  /** A role entry that carries no permission: the roster fold demotes its subject, the control fold does not. */
  lemma MalformedGrantDemotes()
    ensures var promote := FoldInput(Verified("did:a", Entry(ROLE_KIND, [], "did:b", Role(Admin))), []);
            var garble := FoldInput(Verified("did:a", Entry(ROLE_KIND, [], "did:b", Payload(""))), []);
            var scope, anchor := Scope((did: string) => did, []), Anchor("did:a");
            && "did:b" !in Admins(Replay(RoleReducer(scope.normalize, []), anchor, [promote, garble]))
            && "did:b" in Admins(Folded(scope, anchor, [promote, garble]).roles)
  {
    var promote := FoldInput(Verified("did:a", Entry(ROLE_KIND, [], "did:b", Role(Admin))), []);
    var garble := FoldInput(Verified("did:a", Entry(ROLE_KIND, [], "did:b", Payload(""))), []);
    var scope, anchor := Scope((did: string) => did, []), Anchor("did:a");
    var reducer := RoleReducer(scope.normalize, []);
    KindsDiffer();
    assert [promote, garble][..1] == [promote] && [promote][..0] == [];
    var first: Roles := map["did:a" := Role(Admin)];
    assert Replay(reducer, anchor, []) == first && "did:a" in Admins(first);
    var second := first["did:b" := Role(Admin)];
    assert "did:a" in Admins(second);
    assert Granted(scope.normalize, promote.verified, first) == second;
    assert Replay(reducer, anchor, [promote]) == second;
    assert Folded(scope, anchor, []) == Control(first, NO_DEVICES);
    assert Folded(scope, anchor, [promote]) == Control(second, NO_DEVICES);
    assert Folded(scope, anchor, [promote, garble]) == Control(second, NO_DEVICES);
    var third := second["did:b" := Payload("")];
    assert "did:a" in Admins(third);
    assert Replay(reducer, anchor, [promote, garble]) == third;
  }
}
