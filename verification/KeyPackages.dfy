/**
  Custody of key packages (`packages/mls-hub/src/pool.ts`, `packages/mls-hub/src/provisioner.ts`,
  `packages/mls-hub/src/errors.ts`).

  A package whose upload was ever started may sit at the hub from then on: an upload that failed may
  have landed, or land later. So what is tracked is every package ever offered, not what the hub
  happens to hold, and nothing is assumed of the hub. The process may die at any await, and single
  flight means one call runs at a time.
 */
module KeyPackages {
  import opened Wrappers
  import opened Utf8

  type Ref = Text

  const DAY_SECONDS := 86_400

  /** The clock reading under which a record was pruned. */
  datatype Reading = Reading(notAfter: int, now: int)

  datatype Ended<T> = Done(value: T) | HubFailed | StoreFailed | Died

  /** `Math.floor(now / 1000) - grace`, compared as the source compares it. */
  predicate PastGrace(notAfter: int, now: int, grace: real) {
    notAfter as real < (now / 1000) as real - grace
  }

  /** Every package ever offered has its local record, or was given up: released, or pruned past its grace. */
  ghost predicate InCustody(offered: set<Ref>, held: set<Ref>, released: set<Ref>, pruned: map<Ref, Reading>) {
    forall ref :: ref in offered ==> ref in held || ref in released || ref in pruned
  }

  ghost predicate PrunedLate(pruned: map<Ref, Reading>, grace: real) {
    forall ref :: ref in pruned ==> PastGrace(pruned[ref].notAfter, pruned[ref].now, grace)
  }
}
