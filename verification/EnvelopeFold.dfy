/**
  The strict, commit-side fold of one envelope (`packages/mls/src/envelope-fold.ts`), for groups
  without a controller.

  Where the replay drops an entry that is off, this fold rejects the whole envelope. It is specified
  against the replay itself: it accepts exactly the envelopes whose every entry is enactable in the
  state the replay reaches there, and then returns the replay's own result.
 */
module EnvelopeFold {
  import opened Wrappers
  import opened Ledger
  import opened Roster
  import opened Registry
  import opened Utf8

  datatype FoldResult =
    | Accepted(control: Control, surfaced: seq<Verified>)
    | Rejected(reason: string, entryID: Text)

  /** Device operations a group without a controller takes. */
  predicate Allowed(op: DeviceOp) {
    !(op.Reset? || op.Clock? || HasProof(op))
  }

  /** What the strict fold demands of an entry, in the state reached by those before it. */
  predicate Enactable(scope: Scope, control: Control, verified: Verified) {
    var entry := verified.entry;
    && entry.groupID == scope.groupID
    && if entry.kind == DEVICE_KIND then entry.value.Device? && Allowed(entry.value.op)
       else
         && Authority(scope, control.registry, verified.issuer) in Admins(control.roles)
         && if entry.kind == ROLE_KIND
            then entry.value.Role? && Admins(Granted(scope.normalize, verified, control.roles)) != {}
            else !(GROUP_PREFIX <= entry.kind)
  }

  /** Every entry is enactable at its own position, judged on the replay of those before it. */
  ghost predicate AllEnactable(scope: Scope, base: Control, from: nat, entries: seq<FoldInput>) {
    forall i :: 0 <= i < |entries| ==>
      Enactable(scope, Continue(scope, base, from, entries[..i]), entries[i].verified)
  }

  /** The first entry that is not enactable. */
  ghost predicate FirstOff(scope: Scope, base: Control, from: nat, entries: seq<FoldInput>, i: nat) {
    && i < |entries|
    && AllEnactable(scope, base, from, entries[..i])
    && !Enactable(scope, Continue(scope, base, from, entries[..i]), entries[i].verified)
  }

  /** The entries that are the consumer's to read, in envelope order. */
  function Consumers(entries: seq<FoldInput>): seq<Verified> {
    if entries == [] then []
    else
      var last := entries[|entries| - 1].verified;
      Consumers(entries[..|entries| - 1]) + (if GROUP_PREFIX <= last.entry.kind then [] else [last])
  }

  /** Reject at the first entry that is off; otherwise the candidate state is the replay's. */
  method FoldEnvelope(scope: Scope, base: Control, entries: seq<FoldInput>,
      ghost from: nat) returns (result: FoldResult)
    ensures result.Accepted? <==> AllEnactable(scope, base, from, entries)
    ensures result.Accepted? ==>
              result.control == Continue(scope, base, from, entries) && result.surfaced == Consumers(entries)
    ensures result.Rejected? ==>
              exists i: nat :: FirstOff(scope, base, from, entries, i) && entries[i].entryID == result.entryID
  {
    hide Continue, AllEnactable, Judged, Judge, RegistryApply, Granted, Admins, Allowed, Consumers, Authority;
    NothingYet(scope, base, from, entries);
    var roles, registry := base.roles, base.registry;
    var surfaced: seq<Verified> := [];
    var i := 0;
    while i < |entries|
      invariant 0 <= i <= |entries|
      invariant Control(roles, registry) == Continue(scope, base, from, entries[..i])
      invariant AllEnactable(scope, base, from, entries[..i])
      invariant surfaced == Consumers(entries[..i])
    {
      var verified, entryID := entries[i].verified, entries[i].entryID;
      var entry := verified.entry;
      ghost var control := Control(roles, registry);
      Extends(scope, base, from, entries, i);
      EnactableNext(scope, control, from + i, verified);
      assert FirstOff(scope, base, from, entries, i) ==> !AllEnactable(scope, base, from, entries) by {
        if FirstOff(scope, base, from, entries, i) { NotAll(scope, base, from, entries, i); }
      }
      if entry.groupID != scope.groupID {
        return Rejected("cross-group entry", entryID);
      }
      if entry.kind == DEVICE_KIND {
        if !entry.value.Device? {
          return Rejected("malformed kumiai.device value", entryID);
        }
        if !Allowed(entry.value.op) {
          return Rejected("device operation is not allowed in this group", entryID);
        }
        registry := RegistryApply(scope, entry, registry);
      } else if Authority(scope, registry, verified.issuer) !in Admins(roles) {
        return Rejected("non-admin issuer", entryID);
      } else if entry.kind == ROLE_KIND {
        if !entry.value.Role? {
          return Rejected("invalid role value", entryID);
        }
        roles := Granted(scope.normalize, verified, roles);
        var admins := AdminCount(roles);
        if admins == 0 {
          return Rejected("would empty the admin set", entryID);
        }
      } else if GROUP_PREFIX <= entry.kind {
        return Rejected("unknown kumiai.* type", entryID);
      } else {
        surfaced := surfaced + [verified];
      }
      i := i + 1;
    }
    assert entries[..|entries|] == entries;
    return Accepted(Control(roles, registry), surfaced);
  }

  lemma NothingYet(scope: Scope, base: Control, from: nat, entries: seq<FoldInput>)
    ensures AllEnactable(scope, base, from, entries[..0]) && Consumers(entries[..0]) == []
    ensures Continue(scope, base, from, entries[..0]) == base
  {
  }

  /** One more entry of the envelope. */
  lemma Extends(scope: Scope, base: Control, from: nat, entries: seq<FoldInput>, i: nat)
    requires i < |entries| && AllEnactable(scope, base, from, entries[..i])
    ensures Enactable(scope, Continue(scope, base, from, entries[..i]), entries[i].verified) ==>
              AllEnactable(scope, base, from, entries[..i + 1])
    ensures Continue(scope, base, from, entries[..i + 1]) ==
            Judged(scope, Continue(scope, base, from, entries[..i]), from + i, entries[i].verified)
    ensures Consumers(entries[..i + 1]) == Consumers(entries[..i]) +
            (if GROUP_PREFIX <= entries[i].verified.entry.kind then [] else [entries[i].verified])
  {
    hide Enactable, Judged, AllEnactable;
    assert entries[..i + 1][..i] == entries[..i];
    if Enactable(scope, Continue(scope, base, from, entries[..i]), entries[i].verified) {
      OneMoreEnactable(scope, base, from, entries, i);
    }
  }

  lemma OneMoreEnactable(scope: Scope, base: Control, from: nat, entries: seq<FoldInput>, i: nat)
    requires i < |entries| && AllEnactable(scope, base, from, entries[..i])
    requires Enactable(scope, Continue(scope, base, from, entries[..i]), entries[i].verified)
    ensures AllEnactable(scope, base, from, entries[..i + 1])
  {
    hide Enactable, Continue;
    var next := entries[..i + 1];
    forall k | 0 <= k < |next| ensures Enactable(scope, Continue(scope, base, from, next[..k]), next[k].verified) {
      assert next[..k] == entries[..k];
      if k < i { assert entries[..i][..k] == entries[..k] && entries[..i][k] == entries[k]; }
    }
  }

  /** What the replay makes of an enactable entry. */
  lemma EnactableNext(scope: Scope, control: Control, position: nat, verified: Verified)
    ensures DEVICE_KIND != ROLE_KIND && GROUP_PREFIX <= DEVICE_KIND && GROUP_PREFIX <= ROLE_KIND
    ensures Enactable(scope, control, verified) ==>
              Judged(scope, control, position, verified) ==
              if verified.entry.kind == DEVICE_KIND
              then control.(registry := RegistryApply(scope, verified.entry, control.registry))
              else if verified.entry.kind == ROLE_KIND
              then control.(roles := Granted(scope.normalize, verified, control.roles))
              else control
  {
    hide RegistryApply, Granted, Authority;
    KindsDiffer();
  }

  lemma NotAll(scope: Scope, base: Control, from: nat, entries: seq<FoldInput>, i: nat)
    requires FirstOff(scope, base, from, entries, i)
    ensures !AllEnactable(scope, base, from, entries)
  {
  }

  // ------------------------------------------------------------------------------------------
  // Strict refines permissive.

  /** The strict fold of an envelope on a replayed ledger is the replay of the ledger with the envelope appended. */
  lemma StrictIsReplay(scope: Scope, anchor: Anchor, ledger: seq<FoldInput>, envelope: seq<FoldInput>)
    requires AllEnactable(scope, Folded(scope, anchor, ledger), |ledger|, envelope)
    ensures Folded(scope, anchor, ledger + envelope) ==
            Continue(scope, Folded(scope, anchor, ledger), |ledger|, envelope)
    ensures forall i :: 0 <= i < |envelope| ==>
              Enactable(scope, Folded(scope, anchor, ledger + envelope[..i]), envelope[i].verified)
  {
    FoldComposes(scope, anchor, ledger, envelope);
    forall i | 0 <= i < |envelope|
      ensures Enactable(scope, Folded(scope, anchor, ledger + envelope[..i]), envelope[i].verified)
    {
      FoldComposes(scope, anchor, ledger, envelope[..i]);
    }
  }

  lemma AllEnactablePrefix(scope: Scope, base: Control, from: nat, entries: seq<FoldInput>, n: nat)
    requires AllEnactable(scope, base, from, entries) && n <= |entries|
    ensures AllEnactable(scope, base, from, entries[..n])
  {
    hide Enactable, Continue;
    forall i | 0 <= i < n
      ensures Enactable(scope, Continue(scope, base, from, entries[..n][..i]), entries[..n][i].verified)
    {
      assert entries[..n][..i] == entries[..i];
    }
  }

  /** Appending an accepted envelope drops only the consumer's entries, which the control state ignores. */
  lemma {:induction false} NothingEnactedIsDropped(scope: Scope, anchor: Anchor, ledger: seq<FoldInput>,
      envelope: seq<FoldInput>)
    requires AllEnactable(scope, Folded(scope, anchor, ledger), |ledger|, envelope)
    ensures DroppedBy(scope, anchor, ledger + envelope) == DroppedBy(scope, anchor, ledger) + Unread(envelope)
    decreases |envelope|
  {
    hide AllEnactable, Enactable, Judge, Folded;
    if envelope == [] {
      assert ledger + envelope == ledger;
    } else {
      var n := |envelope| - 1;
      AllEnactablePrefix(scope, Folded(scope, anchor, ledger), |ledger|, envelope, n);
      NothingEnactedIsDropped(scope, anchor, ledger, envelope[..n]);
      StrictIsReplay(scope, anchor, ledger, envelope);
      var whole := ledger + envelope;
      assert whole[..|whole| - 1] == ledger + envelope[..n];
      EnactableVerdict(scope, Folded(scope, anchor, ledger + envelope[..n]), |whole| - 1, envelope[n].verified);
    }
  }

  lemma EnactableVerdict(scope: Scope, control: Control, position: nat, verified: Verified)
    requires Enactable(scope, control, verified)
    ensures var verdict := Judge(scope, control, position, verified);
            if GROUP_PREFIX <= verified.entry.kind then verdict.Applied? else verdict == Dropped("unrelated type")
  {
    hide RegistryApply, Granted, Authority;
    KindsDiffer();
  }

  /** The notices for a consumer's entries. */
  function Unread(entries: seq<FoldInput>): seq<Drop> {
    if entries == [] then []
    else
      var last := entries[|entries| - 1];
      Unread(entries[..|entries| - 1]) +
      (if GROUP_PREFIX <= last.verified.entry.kind then [] else [Drop(last.entryID, "unrelated type")])
  }
}
