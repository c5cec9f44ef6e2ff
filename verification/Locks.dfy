/** What a PostgreSQL transaction of this application can hold: advisory locks, row locks, and the
    implicit lock an uncommitted insert or delete puts on a unique key. */
module Locks {

  datatype Resource =
    | EmailKey(key: int)                // advisory lock, namespace 0x656D
    | TokenKey(user: nat)               // advisory lock, namespace 0x706B
    | OAuthRow(owner: nat, row: nat)    // a Grant, RefreshToken, AccessToken or IDToken row
    | Username(name: string)            // unique index entry
    | UserRow(user: nat)
    | Credential(credential: nat)       // passkey row and its unique index entry

  /** Row lock strengths, weakest first. Advisory locks and unique keys are taken as Update. */
  datatype Mode = KeyShare | NoKeyUpdate | Update

  datatype Lock = Lock(resource: Resource, mode: Mode)

  predicate Conflict(a: Lock, b: Lock) {
    && a.resource == b.resource
    && (a.mode == Update || b.mode == Update || (a.mode == NoKeyUpdate && b.mode == NoKeyUpdate))
  }

  /** PostgreSQL's table of conflicting row locks, without FOR SHARE, which nothing here takes. */
  lemma ConflictTable(r: Resource, q: Resource, m: Mode, n: Mode)
    ensures Conflict(Lock(r, KeyShare), Lock(r, m)) <==> m == Update
    ensures Conflict(Lock(r, NoKeyUpdate), Lock(r, m)) <==> m != KeyShare
    ensures Conflict(Lock(r, Update), Lock(r, m))
    ensures r != q ==> !Conflict(Lock(r, m), Lock(q, n))
  {
  }
}
