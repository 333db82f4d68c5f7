/**
 The protected writes of credential validation and supersession
 (worker/handlers/credential.ts): status and active-fingerprint latch are updated one
 after the other and must agree.  A violated unique constraint aborts the transaction.
 */
module CredentialLifecycle {
  import opened Wrappers

  type CredentialId = nat

  datatype Status = Active | Superseded | Expired | Invalid

  datatype Credential = Credential(account: string, kind: string, fingerprint: string, status: Status)

  /** Credential rows, and the latch rows by credential id with their unique fingerprint. */
  datatype Tables = Tables(rows: map<CredentialId, Credential>, latches: map<CredentialId, string>)

  /** What local JWT validation says of a secret. */
  datatype Verdict = JwtActive | JwtExpired | JwtInvalid

  datatype Event = Validate(id: CredentialId, verdict: Verdict) | Supersede(id: CredentialId, account: string)

  function StatusOf(v: Verdict): Status {
    match v
    case JwtActive => Active
    case JwtExpired => Expired
    case JwtInvalid => Invalid
  }

  /** Another credential of the same account and type is active. */
  predicate OtherActive(t: Tables, id: CredentialId)
    requires id in t.rows
  {
    exists k :: k in t.rows && k != id && t.rows[k].status == Active
                && t.rows[k].account == t.rows[id].account && t.rows[k].kind == t.rows[id].kind
  }

  /** The checks of a validation commit, on the locked row. */
  predicate MayValidate(t: Tables, id: CredentialId, v: Verdict) {
    && id in t.rows && t.rows[id].status != Superseded
    && (v == JwtActive && t.rows[id].status != Active ==> !OtherActive(t, id))
  }

  predicate FingerprintTaken(t: Tables, id: CredentialId, fingerprint: string) {
    exists k :: k in t.latches && k != id && t.latches[k] == fingerprint
  }

  /**
   The writes of a validation commit.  None when a unique index refuses one of them: a second
   active credential of the account and type, or a fingerprint latched by another credential.
   */
  function ValidateWrites(t: Tables, id: CredentialId, v: Verdict): Option<Tables>
    requires id in t.rows
  {
    var row := t.rows[id];
    var rows := t.rows[id := row.(status := StatusOf(v))];
    if v != JwtActive then Some(Tables(rows, t.latches - {id}))
    else if OtherActive(t, id) then None
    else if id in t.latches then Some(Tables(rows, t.latches))
    else if FingerprintTaken(t, id, row.fingerprint) then None
    else Some(Tables(rows, t.latches[id := row.fingerprint]))
  }

  predicate MaySupersede(t: Tables, id: CredentialId, account: string) {
    id in t.rows && t.rows[id].account == account && t.rows[id].status == Active
  }

  function Apply(t: Tables, e: Event): Tables {
    match e
    case Validate(id, v) =>
      if !MayValidate(t, id, v) then t
      else (match ValidateWrites(t, id, v) case Some(u) => u case None => t)
    case Supersede(id, account) =>
      if !MaySupersede(t, id, account) then t
      else Tables(t.rows[id := t.rows[id].(status := Superseded)], t.latches - {id})
  }

  /** The commit is not refused. */
  predicate TakesEffect(t: Tables, e: Event) {
    match e
    case Validate(id, v) => MayValidate(t, id, v) && ValidateWrites(t, id, v).Some?
    case Supersede(id, account) => MaySupersede(t, id, account)
  }

  function ApplyAll(t: Tables, events: seq<Event>): Tables
    decreases |events|
  {
    if events == [] then t else ApplyAll(Apply(t, events[0]), events[1..])
  }

  // ---------------------------------------------------------------------
  // The invariant over any sequence of commits
  // ---------------------------------------------------------------------

  /** A credential is latched, under its own fingerprint, exactly when it is active. */
  predicate LatchAgrees(t: Tables, id: CredentialId) {
    && (id in t.latches <==> id in t.rows && t.rows[id].status == Active)
    && (id in t.latches ==> t.latches[id] == t.rows[id].fingerprint)
  }

  predicate SamePair(a: Credential, b: Credential) {
    a.account == b.account && a.kind == b.kind
  }

  ghost predicate Latched(t: Tables) {
    && (forall id :: LatchAgrees(t, id))
    && (forall j, k :: j in t.latches && k in t.latches && j != k ==> t.latches[j] != t.latches[k])
  }

  ghost predicate OneActive(t: Tables) {
    forall j, k :: j in t.rows && k in t.rows && j != k && t.rows[j].status == Active && t.rows[k].status == Active
      ==> !SamePair(t.rows[j], t.rows[k])
  }

  ghost predicate Consistent(t: Tables) {
    Latched(t) && OneActive(t)
  }

  /** Rows keep their account, type and fingerprint; a superseded credential stays superseded. */
  predicate Preserves(t: Tables, u: Tables) {
    && u.rows.Keys == t.rows.Keys
    && forall id :: id in t.rows ==>
         && SamePair(u.rows[id], t.rows[id]) && u.rows[id].fingerprint == t.rows[id].fingerprint
         && (t.rows[id].status == Superseded ==> u.rows[id].status == Superseded)
  }

  /** Setting a status and the latch that goes with it. */
  lemma WritesKeepLatches(t: Tables, id: CredentialId, v: Verdict)
    requires Latched(t) && id in t.rows && ValidateWrites(t, id, v).Some?
    ensures Latched(ValidateWrites(t, id, v).value)
  {
    var u := ValidateWrites(t, id, v).value;
    forall k ensures LatchAgrees(u, k) { assert LatchAgrees(t, k); }
  }

  lemma ValidateKeeps(t: Tables, id: CredentialId, v: Verdict)
    requires Consistent(t) && MayValidate(t, id, v) && ValidateWrites(t, id, v).Some?
    ensures var u := ValidateWrites(t, id, v).value; Consistent(u) && Preserves(t, u)
  {
    var u := ValidateWrites(t, id, v).value;
    WritesKeepLatches(t, id, v);
    forall j, k | j in u.rows && k in u.rows && j != k && u.rows[j].status == Active && u.rows[k].status == Active
      ensures !SamePair(u.rows[j], u.rows[k])
    {
      assert t.rows[if j == id then k else j].status == Active;
    }
  }

  lemma SupersedeKeeps(t: Tables, id: CredentialId, account: string)
    requires Consistent(t)
    ensures var u := Apply(t, Supersede(id, account)); Consistent(u) && Preserves(t, u)
  {
    var u := Apply(t, Supersede(id, account));
    forall k ensures LatchAgrees(u, k) { assert LatchAgrees(t, k); }
  }

  lemma ApplyKeeps(t: Tables, e: Event)
    requires Consistent(t)
    ensures Consistent(Apply(t, e)) && Preserves(t, Apply(t, e))
  {
    match e
    case Validate(id, v) =>
      if MayValidate(t, id, v) && ValidateWrites(t, id, v).Some? {
        ValidateKeeps(t, id, v);
      }
    case Supersede(id, account) => SupersedeKeeps(t, id, account);
  }

  /**
   Over any sequence of validation and supersession commits from a consistent state: a
   credential has a latch, under its own fingerprint, exactly when it is active; at most
   one credential per account and type is active; `superseded` is never left.
   */
  lemma {:induction false} CommitsKeepConsistency(t: Tables, events: seq<Event>)
    requires Consistent(t)
    ensures Consistent(ApplyAll(t, events)) && Preserves(t, ApplyAll(t, events))
    decreases |events|
  {
    if events != [] {
      ApplyKeeps(t, events[0]);
      CommitsKeepConsistency(Apply(t, events[0]), events[1..]);
    }
  }

  /**
   A validation is accepted exactly when the credential is not superseded, its fingerprint
   is free, and, if it is to become active, no other of its account and type is.
   */
  lemma ValidateTakesEffectIff(t: Tables, id: CredentialId, v: Verdict)
    requires Consistent(t) && id in t.rows
    ensures TakesEffect(t, Validate(id, v)) <==>
              t.rows[id].status != Superseded &&
              (v != JwtActive || t.rows[id].status == Active ||
                 (!OtherActive(t, id) && !FingerprintTaken(t, id, t.rows[id].fingerprint)))
    ensures TakesEffect(t, Validate(id, v)) ==> ValidatedAs(t, Apply(t, Validate(id, v)), id, v)
    ensures !TakesEffect(t, Validate(id, v)) ==> Apply(t, Validate(id, v)) == t
  {
    assert LatchAgrees(t, id);
  }

  /** The credential got the status its secret was validated to, and is latched when it is active. */
  predicate ValidatedAs(t: Tables, u: Tables, id: CredentialId, v: Verdict) {
    && id in t.rows && u.rows.Keys == t.rows.Keys
    && (forall k :: k in t.rows && k != id ==> u.rows[k] == t.rows[k])
    && SamePair(u.rows[id], t.rows[id]) && u.rows[id].fingerprint == t.rows[id].fingerprint
    && (u.rows[id].status == Active <==> v == JwtActive) && (u.rows[id].status == Expired <==> v == JwtExpired)
    && (u.rows[id].status == Invalid <==> v == JwtInvalid)
    && u.latches - {id} == t.latches - {id} && (id in u.latches <==> v == JwtActive)
  }

  /** An active credential was superseded and lost its latch. */
  predicate SupersededAs(t: Tables, u: Tables, id: CredentialId) {
    && id in t.rows && t.rows[id].status == Active
    && u.rows == t.rows[id := Credential(t.rows[id].account, t.rows[id].kind, t.rows[id].fingerprint, Superseded)]
    && u.latches == t.latches - {id}
  }

  lemma EffectInFull(t: Tables, e: Event)
    requires TakesEffect(t, e)
    ensures e.Validate? ==> ValidatedAs(t, Apply(t, e), e.id, e.verdict)
    ensures e.Supersede? ==> SupersededAs(t, Apply(t, e), e.id) && t.rows[e.id].account == e.account
  {
  }

  // ---------------------------------------------------------------------
  // The protected writes, statement by statement
  // ---------------------------------------------------------------------

  class CredentialStore {
    var rows: map<CredentialId, Credential>
    var latches: map<CredentialId, string>

    function Contents(): Tables
      reads this
    {
      Tables(rows, latches)
    }

    constructor (rows: map<CredentialId, Credential>, latches: map<CredentialId, string>)
      ensures Contents() == Tables(rows, latches)
    {
      this.rows, this.latches := rows, latches;
    }

    /** The protected write of validation; a refused check or a violated unique index leaves no trace. */
    method CommitValidation(id: CredentialId, v: Verdict) returns (committed: bool)
      modifies this
      ensures Contents() == Apply(old(Contents()), Validate(id, v))
      ensures committed == TakesEffect(old(Contents()), Validate(id, v))
      ensures committed ==> ValidatedAs(old(Contents()), Contents(), id, v)
      ensures !committed ==> Contents() == old(Contents())
    {
      if id !in rows || rows[id].status == Superseded {
        return false;
      }
      var row := rows[id];
      if v == JwtActive && row.status != Active {
        var others := exists k :: k in rows && k != id && rows[k].status == Active
                                  && rows[k].account == row.account && rows[k].kind == row.kind;
        if others {
          return false;
        }
      }
      if v == JwtActive && exists k :: k in rows && k != id && rows[k].status == Active
                                       && rows[k].account == row.account && rows[k].kind == row.kind {
        return false;
      }
      var saved := rows;
      rows := rows[id := row.(status := StatusOf(v))];
      if v == JwtActive {
        if id !in latches {
          if exists k :: k in latches && k != id && latches[k] == row.fingerprint {
            rows := saved;
            return false;
          }
          latches := latches[id := row.fingerprint];
        }
      } else {
        latches := latches - {id};
      }
      committed := true;
    }

    /** The protected write of supersession: only an active credential of the account. */
    method CommitSupersession(id: CredentialId, account: string) returns (committed: bool)
      modifies this
      ensures Contents() == Apply(old(Contents()), Supersede(id, account))
      ensures committed <==> id in old(rows) && old(rows)[id].account == account && old(rows)[id].status == Active
      ensures committed ==> SupersededAs(old(Contents()), Contents(), id)
      ensures !committed ==> Contents() == old(Contents())
    {
      committed := id in rows && rows[id].account == account && rows[id].status == Active;
      if committed {
        rows := rows[id := rows[id].(status := Superseded)];
        latches := latches - {id};
      }
    }
  }
}
