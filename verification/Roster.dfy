/**
  The generic ordered replay (`packages/mls/src/fold.ts`) and the roster it projects
  (`packages/mls/src/roster.ts`).
 */
module Roster {
  import opened Ledger
  import opened Utf8

  /** The value of the last accepted grant to each DID, whether or not it is a permission. */
  type Roles = map<string, Value>

  function Admins(roles: Roles): set<string> {
    set did | did in roles && roles[did] == Role(Admin)
  }

  method AdminCount(roles: Roles) returns (count: nat)
    ensures count == |Admins(roles)|
  {
    var todo := roles.Keys;
    ghost var seen: set<string> := {};
    count := 0;
    while todo != {}
      invariant todo <= roles.Keys
      invariant seen == (set did | did in roles && did !in todo && roles[did] == Role(Admin))
      invariant count == |seen|
      decreases todo
    {
      var did :| did in todo;
      if roles[did] == Role(Admin) {
        count := count + 1;
        seen := seen + {did};
      }
      todo := todo - {did};
    }
    assert seen == Admins(roles);
  }

  // ------------------------------------------------------------------------------------------
  // The generic fold.

  datatype Reducer<!S> = Reducer(
    kind: string, seed: Anchor -> S, authorized: (Verified, S) -> bool, apply: (Verified, S) -> S)

  predicate Accepts<S>(reducer: Reducer<S>, verified: Verified, state: S) {
    verified.entry.kind == reducer.kind && reducer.authorized(verified, state)
  }

  /** The state after every entry in order; an entry that is not accepted is skipped. */
  function Replay<S>(reducer: Reducer<S>, anchor: Anchor, entries: seq<FoldInput>): S {
    if entries == [] then reducer.seed(anchor)
    else
      var last := entries[|entries| - 1].verified;
      var state := Replay(reducer, anchor, entries[..|entries| - 1]);
      if Accepts(reducer, last, state) then reducer.apply(last, state) else state
  }

  /** What an observer hears of: exactly the entries skipped, in order. */
  function Skipped<S>(reducer: Reducer<S>, anchor: Anchor, entries: seq<FoldInput>): seq<Text> {
    if entries == [] then []
    else
      var n := |entries| - 1;
      Skipped(reducer, anchor, entries[..n]) +
      (if Accepts(reducer, entries[n].verified, Replay(reducer, anchor, entries[..n])) then []
       else [entries[n].entryID])
  }

  method FoldLedger<S>(entries: seq<FoldInput>, anchor: Anchor, reducer: Reducer<S>) returns (state: S,
      drops: seq<Text>)
    ensures state == Replay(reducer, anchor, entries)
    ensures drops == Skipped(reducer, anchor, entries)
  {
    state, drops := reducer.seed(anchor), [];
    var i := 0;
    while i < |entries|
      invariant 0 <= i <= |entries|
      invariant state == Replay(reducer, anchor, entries[..i])
      invariant drops == Skipped(reducer, anchor, entries[..i])
    {
      var input := entries[i];
      assert entries[..i + 1][..i] == entries[..i];
      if input.verified.entry.kind != reducer.kind {
        drops := drops + [input.entryID];
      } else if !reducer.authorized(input.verified, state) {
        drops := drops + [input.entryID];
      } else {
        state := reducer.apply(input.verified, state);
      }
      i := i + 1;
    }
    assert entries[..|entries|] == entries;
  }

  // ------------------------------------------------------------------------------------------
  // The roster.

  /** A grant sets its subject's value as it is: one that is no permission takes the subject's away. */
  function Granted(normalize: Normalize, verified: Verified, roles: Roles): Roles {
    roles[normalize(verified.entry.subject) := verified.entry.value]
  }

  /** An issuer must be an admin so far, in this group, and must not empty the admin set. */
  predicate MayGrant(normalize: Normalize, groupID: Text, verified: Verified, roles: Roles) {
    && verified.entry.groupID == groupID
    && normalize(verified.issuer) in Admins(roles)
    && Admins(Granted(normalize, verified, roles)) != {}
  }

  function RoleReducer(normalize: Normalize, groupID: Text): Reducer<Roles> {
    Reducer(
      ROLE_KIND,
      (anchor: Anchor) => map[normalize(anchor.creatorDID) := Role(Admin)],
      (verified, roles) => MayGrant(normalize, groupID, verified, roles),
      (verified, roles) => Granted(normalize, verified, roles))
  }

  method FoldRoster(normalize: Normalize, entries: seq<FoldInput>, anchor: Anchor, groupID: Text)
    returns (roles: Roles, drops: seq<Text>)
    ensures roles == Replay(RoleReducer(normalize, groupID), anchor, entries)
    ensures drops == Skipped(RoleReducer(normalize, groupID), anchor, entries)
  {
    roles, drops := FoldLedger(entries, anchor, RoleReducer(normalize, groupID));
  }

  // ------------------------------------------------------------------------------------------
  // Provenance. What each entry did to the roster, whichever fold decided it.

  datatype Move = Skip | Grant(granter: string, grantee: string, value: Value)

  function Played(root: string, moves: seq<Move>): Roles {
    if moves == [] then map[root := Role(Admin)]
    else
      var roles := Played(root, moves[..|moves| - 1]);
      match moves[|moves| - 1]
      case Skip => roles
      case Grant(_, to, value) => roles[to := value]
  }

  /** Every grant was made by an admin of the strictly shorter prefix and left an admin. */
  ghost predicate Authorized(root: string, moves: seq<Move>) {
    forall i :: 0 <= i < |moves| && moves[i].Grant? ==>
      moves[i].granter in Admins(Played(root, moves[..i])) && Admins(Played(root, moves[..i + 1])) != {}
  }

  /** Grants of admin leading back to the root: each made by the grantee of an earlier one. */
  ghost predicate Chain(root: string, moves: seq<Move>, did: string, chain: seq<nat>)
    decreases |chain|
  {
    if chain == [] then did == root
    else
      && chain[0] < |moves|
      && moves[chain[0]].Grant? && moves[chain[0]].grantee == did && moves[chain[0]].value == Role(Admin)
      && Chain(root, moves[..chain[0]], moves[chain[0]].granter, chain[1..])
  }

  lemma AuthorizedPrefix(root: string, moves: seq<Move>, n: nat)
    requires Authorized(root, moves) && n <= |moves|
    ensures Authorized(root, moves[..n])
  {
    forall i | 0 <= i < |moves[..n]| && moves[..n][i].Grant?
      ensures moves[..n][i].granter in Admins(Played(root, moves[..n][..i]))
      ensures Admins(Played(root, moves[..n][..i + 1])) != {}
    {
      assert moves[..n][..i] == moves[..i] && moves[..n][..i + 1] == moves[..i + 1];
    }
  }

  /** The group always has an admin: nobody can ever be left unable to add, remove or promote. */
  lemma {:induction false} NeverAdminless(root: string, moves: seq<Move>)
    requires Authorized(root, moves)
    ensures Admins(Played(root, moves)) != {}
  {
    if moves == [] {
      assert root in Admins(Played(root, moves));
    } else {
      var n := |moves| - 1;
      assert moves[..n + 1] == moves;
      AuthorizedPrefix(root, moves, n);
      NeverAdminless(root, moves[..n]);
    }
  }

  /** Every admin traces back to the root through a finite chain of admin grants. */
  lemma {:induction false} Provenance(root: string, moves: seq<Move>, did: string)
    requires Authorized(root, moves) && did in Admins(Played(root, moves))
    ensures exists chain :: Chain(root, moves, did, chain)
  {
    if moves == [] {
      assert Chain(root, moves, did, []);
    } else {
      var n := |moves| - 1;
      var last := moves[n];
      AuthorizedPrefix(root, moves, n);
      if last.Grant? && last.grantee == did {
        Provenance(root, moves[..n], last.granter);
        var rest :| Chain(root, moves[..n], last.granter, rest);
        assert Chain(root, moves, did, [n] + rest) by {
          assert ([n] + rest)[1..] == rest;
        }
      } else {
        Provenance(root, moves[..n], did);
        var chain :| Chain(root, moves[..n], did, chain);
        ChainGrows(root, moves, n, did, chain);
      }
    }
  }

  lemma ChainGrows(root: string, moves: seq<Move>, n: nat, did: string, chain: seq<nat>)
    requires n <= |moves| && Chain(root, moves[..n], did, chain)
    ensures Chain(root, moves, did, chain)
  {
    if chain != [] {
      assert moves[..n][..chain[0]] == moves[..chain[0]];
    }
  }

  function RosterMove(normalize: Normalize, groupID: Text, anchor: Anchor, entries: seq<FoldInput>, i: nat): Move
    requires i < |entries|
  {
    var v := entries[i].verified;
    var before := Replay(RoleReducer(normalize, groupID), anchor, entries[..i]);
    if Accepts(RoleReducer(normalize, groupID), v, before)
    then Grant(normalize(v.issuer), normalize(v.entry.subject), v.entry.value)
    else Skip
  }

  function RosterMoves(normalize: Normalize, groupID: Text, anchor: Anchor, entries: seq<FoldInput>): seq<Move> {
    seq(|entries|, i requires 0 <= i < |entries| => RosterMove(normalize, groupID, anchor, entries, i))
  }

  lemma {:induction false} RosterIsPlayed(normalize: Normalize, groupID: Text, anchor: Anchor, entries: seq<FoldInput>)
    ensures Replay(RoleReducer(normalize, groupID), anchor, entries)
         == Played(normalize(anchor.creatorDID), RosterMoves(normalize, groupID, anchor, entries))
  {
    if entries != [] {
      var n := |entries| - 1;
      RosterIsPlayed(normalize, groupID, anchor, entries[..n]);
      RosterMovesPrefix(normalize, groupID, anchor, entries, n);
    }
  }

  lemma RosterMovesPrefix(normalize: Normalize, groupID: Text, anchor: Anchor, entries: seq<FoldInput>, n: nat)
    requires n <= |entries|
    ensures RosterMoves(normalize, groupID, anchor, entries[..n]) ==
            RosterMoves(normalize, groupID, anchor, entries)[..n]
  {
    forall i | 0 <= i < n ensures entries[..n][..i] == entries[..i] {
    }
  }

  /** Each role grant the fold accepts was made by an admin so far, and left one. */
  lemma RosterMovesAuthorized(normalize: Normalize, groupID: Text, anchor: Anchor, entries: seq<FoldInput>)
    ensures Authorized(normalize(anchor.creatorDID), RosterMoves(normalize, groupID, anchor, entries))
  {
    var root, moves := normalize(anchor.creatorDID), RosterMoves(normalize, groupID, anchor, entries);
    forall i | 0 <= i < |moves| && moves[i].Grant?
      ensures moves[i].granter in Admins(Played(root, moves[..i]))
      ensures Admins(Played(root, moves[..i + 1])) != {}
    {
      RosterIsPlayed(normalize, groupID, anchor, entries[..i]);
      RosterIsPlayed(normalize, groupID, anchor, entries[..i + 1]);
      RosterMovesPrefix(normalize, groupID, anchor, entries, i);
      RosterMovesPrefix(normalize, groupID, anchor, entries, i + 1);
      assert entries[..i + 1][..i] == entries[..i];
    }
  }

  lemma RosterProvenance(normalize: Normalize, groupID: Text, anchor: Anchor, entries: seq<FoldInput>, did: string)
    ensures var root, moves := normalize(anchor.creatorDID), RosterMoves(normalize, groupID, anchor, entries);
            var roles := Replay(RoleReducer(normalize, groupID), anchor, entries);
            && Admins(roles) != {}
            && (did in Admins(roles) ==> exists chain :: Chain(root, moves, did, chain))
  {
    var root, moves := normalize(anchor.creatorDID), RosterMoves(normalize, groupID, anchor, entries);
    RosterIsPlayed(normalize, groupID, anchor, entries);
    RosterMovesAuthorized(normalize, groupID, anchor, entries);
    NeverAdminless(root, moves);
    if did in Admins(Played(root, moves)) { Provenance(root, moves, did); }
  }
}
