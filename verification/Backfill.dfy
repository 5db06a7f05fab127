/** The secret backfill: credentials move out of the config into a sealed bag under the active key
    (internal/app/dataprotection/service.go, internal/app/secretcfg/secretcfg.go, internal/domain/shared/secrets.go). */
module Backfill {
  import opened Prelude
  import opened KeysetSweep

  /** A config value; secret keys must hold strings. */
  datatype Json = Text(text: string) | Raw(code: nat)

  type Config = map<string, Json>
  type Secrets = map<string, string>

  datatype Binding = Binding(table: nat, row: nat, branch: nat)

  /** A sealed bag, ideally encrypted: it opens only for its binding and a known key. */
  datatype Sealed = Empty | Cipher(key: nat, binding: Binding, bag: Secrets, nonce: nat)

  datatype Row = Row(branch: nat, config: Config, sealed: Sealed, tokenHash: string)

  /** Key names that hold credentials, the keyring, the blind index and whether this table keeps token hashes. */
  datatype Env = Env(table: nat, isSecret: string -> bool, keys: set<nat>, active: nat, index: string -> string,
                     hashesTokens: bool)

  datatype Failure = BadConfig | CannotOpen

  datatype Loaded = Loaded(public: Config, secrets: Secrets)

  function Public(env: Env, c: Config): Config {
    map k | k in c && !env.isSecret(k) :: c[k]
  }

  /** Non-empty legacy secrets still in the config, trimmed. */
  function Legacy(env: Env, c: Config): Secrets {
    map k | k in c && env.isSecret(k) && c[k].Text? && Trim(c[k].text) != "" :: Trim(c[k].text)
  }

  predicate Splits(env: Env, c: Config) {
    forall k :: k in c && env.isSecret(k) ==> c[k].Text?
  }

  function Open(env: Env, s: Sealed, b: Binding): Result<Secrets, Failure> {
    match s
    case Empty => Ok(map[])
    case Cipher(key, binding, bag, _) => if binding == b && key in env.keys then Ok(bag) else Err(CannotOpen)
  }

  function Seal(env: Env, bag: Secrets, b: Binding, nonce: nat): Sealed {
    if bag == map[] then Empty else Cipher(env.active, b, bag, nonce)
  }

  predicate NeedsRotation(env: Env, s: Sealed) { s.Cipher? && s.key != env.active }

  function BindingOf(env: Env, id: nat, r: Row): Binding { Binding(env.table, id, r.branch) }

  /** Vault.Load: sealed values win over legacy plaintext. */
  function Load(env: Env, id: nat, r: Row): Result<Loaded, Failure> {
    if !Splits(env, r.config) then Err(BadConfig)
    else
      match Open(env, r.sealed, BindingOf(env, id, r))
      case Err(e) => Err(e)
      case Ok(bag) => Ok(Loaded(Public(env, r.config), Legacy(env, r.config) + bag))
  }

  function TokenHash(env: Env, l: Loaded): string {
    if "verify_token" in l.secrets && l.secrets["verify_token"] != "" then env.index(l.secrets["verify_token"]) else ""
  }

  /** The stored form of a row and whether it differs. */
  function Reseal(env: Env, id: nat, r: Row, nonce: nat): Result<(Row, bool), Failure> {
    match Load(env, id, r)
    case Err(e) => Err(e)
    case Ok(l) =>
      var legacy := r.config != l.public;
      var next := r.(
        config := l.public,
        sealed := if legacy || NeedsRotation(env, r.sealed) then Seal(env, l.secrets, BindingOf(env, id, r), nonce)
                  else r.sealed,
        tokenHash := if env.hashesTokens then TokenHash(env, l) else r.tokenHash);
      Ok((next, legacy || next.sealed != r.sealed || next.tokenHash != r.tokenHash))
  }

  /** What a row loads to: every key that holds no credential as it stands, and per credential the sealed value, else
      the trimmed one left in the config unless that is blank. It fails exactly for a credential that is no text or a
      bag sealed for another row or under an unknown key. */
  lemma LoadedExactly(env: Env, id: nat, r: Row, key: string)
    ensures Load(env, id, r).Ok? <==>
      && (forall k :: k in r.config && env.isSecret(k) ==> r.config[k].Text?)
      && (r.sealed.Cipher? ==> r.sealed.key in env.keys && r.sealed.binding == Binding(env.table, id, r.branch))
    ensures Load(env, id, r).Ok? ==>
      var (l, bag) := (Load(env, id, r).value, if r.sealed.Cipher? then r.sealed.bag else map[]);
      && (key in l.public <==> key in r.config && !env.isSecret(key))
      && (key in l.public ==> l.public[key] == r.config[key])
      && (key in bag ==> key in l.secrets && l.secrets[key] == bag[key])
      && (key !in bag ==>
            && (key in l.secrets <==> key in r.config && env.isSecret(key) && Trim(r.config[key].text) != "")
            && (key in l.secrets ==> l.secrets[key] == Trim(r.config[key].text)))
  {}

  /** A resealed row of a table with token hashes stores the index of its verify token, or nothing without one. */
  lemma HashStored(env: Env, id: nat, r: Row, nonce: nat)
    requires Reseal(env, id, r, nonce).Ok?
    ensures var (next, l) := (Reseal(env, id, r, nonce).value.0, Load(env, id, r).value);
      next.tokenHash ==
      if !env.hashesTokens then r.tokenHash
      else if "verify_token" in l.secrets && l.secrets["verify_token"] != "" then env.index(l.secrets["verify_token"])
      else ""
  {}

  ghost predicate KeyringOk(env: Env) { env.active in env.keys }

  /** MAIN: a resealed row loads to the same public config and the same secrets, holds no plaintext credential,
      and resealing it again changes nothing. */
  lemma ResealPreservesMeaning(env: Env, id: nat, r: Row, nonce: nat, nonce': nat)
    requires KeyringOk(env) && Reseal(env, id, r, nonce).Ok?
    ensures var next := Reseal(env, id, r, nonce).value.0;
      && Load(env, id, next) == Load(env, id, r)
      && (forall k :: k in next.config ==> !env.isSecret(k))
      && !NeedsRotation(env, next.sealed)
      && Reseal(env, id, next, nonce') == Ok((next, false))
  {
    var l := Load(env, id, r).value;
    var next := Reseal(env, id, r, nonce).value.0;
    assert Public(env, next.config) == next.config;
    assert Legacy(env, next.config) == map[];
    if r.config == l.public {
      assert Legacy(env, r.config) == map[];
    }
    assert map[] + l.secrets == l.secrets;
    assert Load(env, id, next) == Ok(l);
  }

  // ---------- concurrent writers ----------

  type Table = seq<Row>

  /** SaveSecrets: writes only if config and bag still equal what was read. */
  function Save(env: Env, t: Table, id: nat, prev: Row, next: Row): (Table, bool)
    requires id < |t|
  {
    var now := t[id];
    if now.config == prev.config && now.sealed == prev.sealed
    then
      (t[id := now.(config := next.config, sealed := next.sealed,
                    tokenHash := if env.hashesTokens then next.tokenHash else now.tokenHash)], true)
    else (t, false)
  }

  /** MAIN: whatever was written since the row was read, the backfill's save changes no row's meaning, never
      overwrites a config or bag other than the ones it was computed from, and leaves a hash of the token the row
      holds. Rows never move between branches. */
  lemma SaveIsSafe(env: Env, t: Table, id: nat, prev: Row, nonce: nat)
    requires KeyringOk(env) && id < |t| && Reseal(env, id, prev, nonce).Ok? && t[id].branch == prev.branch
    ensures var (t', ok) := Save(env, t, id, prev, Reseal(env, id, prev, nonce).value.0);
      && |t'| == |t|
      && (forall j :: 0 <= j < |t| ==> Load(env, j, t'[j]) == Load(env, j, t[j]))
      && (forall j :: 0 <= j < |t| && j != id ==> t'[j] == t[j])
      && (ok <==> t[id].config == prev.config && t[id].sealed == prev.sealed)
      && (!ok ==> t' == t)
      && (ok && env.hashesTokens ==> t'[id].tokenHash == TokenHash(env, Load(env, id, t[id]).value))
  {
    ResealPreservesMeaning(env, id, prev, nonce, nonce);
  }

  // ---------- a full run ----------

  /** Rows the listing returns: any config, a bag under another key or, with token hashes, any bag. */
  predicate Pending(env: Env, r: Row) {
    || r.config != map[]
    || (r.sealed.Cipher? && r.sealed.key != env.active)
    || (env.hashesTokens && r.sealed.Cipher?)
  }

  /** The bag, if any, was sealed for this row. */
  predicate BoundHere(env: Env, id: nat, r: Row) {
    r.sealed.Cipher? ==> r.sealed.binding == BindingOf(env, id, r)
  }

  /** A row the listing skips is already in its stored form, unless only a stale token hash is left behind or its bag
      was sealed for another row, which no run can open. */
  lemma SkippedIsFinalIffNoStaleHash(env: Env, id: nat, r: Row, nonce: nat)
    requires KeyringOk(env) && !Pending(env, r)
    ensures Reseal(env, id, r, nonce).Ok? <==> BoundHere(env, id, r)
    ensures Reseal(env, id, r, nonce) == Ok((r, false)) <==>
      (BoundHere(env, id, r) && !(env.hashesTokens && r.tokenHash != ""))
  {
    assert Public(env, map[]) == map[] && Legacy(env, map[]) == map[];
    assert Splits(env, map[]);
  }

  /** An empty row with a hash is skipped although resealing it would clear the hash. */
  lemma StaleHashSkipped(env: Env, id: nat, branch: nat, hash: string, nonce: nat)
    requires KeyringOk(env) && env.hashesTokens && hash != ""
    ensures var r := Row(branch, map[], Empty, hash);
      !Pending(env, r) && Reseal(env, id, r, nonce) == Ok((r.(tokenHash := ""), true))
  {
    assert Public(env, map[]) == map[] && Legacy(env, map[]) == map[];
    assert Splits(env, map[]);
  }

  type Nonces = nat -> nat

  /** A run in progress; the first row that cannot be loaded ends it, and the rest stays untouched. */
  datatype Progress = Progress(table: Table, failure: Option<Failure>)

  function HandleRow(env: Env, s: Progress, id: nat, nonce: nat): (Progress, Outcome) {
    if id >= |s.table| || s.failure.Some? then (s, Unchanged)
    else
      match Reseal(env, id, s.table[id], nonce)
      case Err(e) => (s.(failure := Some(e)), Failed)
      case Ok(r) =>
        if r.1 then (s.(table := Save(env, s.table, id, s.table[id], r.0).0), Changed) else (s, Unchanged)
  }

  function Resealing(env: Env, nonces: Nonces): Handler<Progress> {
    (s: Progress, id: nat) => HandleRow(env, s, id, nonces(id))
  }

  function PendingIn(env: Env): Listing<Progress> {
    (s: Progress, id: nat) => id < |s.table| && Pending(env, s.table[id])
  }

  lemma HandleRowLocal(env: Env, s: Progress, id: nat, nonce: nat, other: nat)
    requires other != id
    ensures var t := HandleRow(env, s, id, nonce).0.table;
      |t| == |s.table| && (other < |t| ==> t[other] == s.table[other])
  {
    if id < |s.table| && Reseal(env, id, s.table[id], nonce).Ok? {
      var r := Reseal(env, id, s.table[id], nonce).value;
      assert Save(env, s.table, id, s.table[id], r.0).0 == s.table[id := r.0];
    }
  }

  lemma ResealingLocal(env: Env, nonces: Nonces)
    ensures Local(PendingIn(env), Resealing(env, nonces))
  {
    forall s: Progress, id: nat, other: nat | other != id
      ensures PendingIn(env)(Resealing(env, nonces)(s, id).0, other) == PendingIn(env)(s, other)
    {
      HandleRowLocal(env, s, id, nonces(id), other);
    }
  }

  /** Row `id` is in its stored form: the backfill would leave it alone. */
  ghost predicate Final(env: Env, id: nat, r: Row) {
    forall nonce: nat :: Reseal(env, id, r, nonce) == Ok((r, false))
  }

  /** After handling `ids`: same meaning everywhere, other rows untouched and, unless the run failed, those final. */
  ghost predicate Resealed(env: Env, t: Table, ids: seq<nat>, s: Progress) {
    && |s.table| == |t|
    && (forall j :: 0 <= j < |t| ==> Load(env, j, s.table[j]) == Load(env, j, t[j]))
    && (forall j :: 0 <= j < |t| && j !in ids ==> s.table[j] == t[j])
    && (s.failure.None? ==> forall j :: j in ids && j < |t| ==> Final(env, j, s.table[j]))
  }

  lemma ResealOne(env: Env, s: Progress, id: nat, nonce: nat)
    requires KeyringOk(env) && id < |s.table|
    ensures var s' := HandleRow(env, s, id, nonce).0;
      && Resealed(env, s.table, [id], s')
      && (s'.failure.None? <==> s.failure.None? && Load(env, id, s.table[id]).Ok?)
  {
    if s.failure.None? && Load(env, id, s.table[id]).Ok? {
      var t' := HandleRow(env, s, id, nonce).0.table;
      SaveIsSafe(env, s.table, id, s.table[id], nonce);
      forall nonce': nat
        ensures Reseal(env, id, t'[id], nonce') == Ok((t'[id], false))
      {
        ResealPreservesMeaning(env, id, s.table[id], nonce, nonce');
      }
    }
  }

  predicate AllLoad(env: Env, t: Table, ids: seq<nat>)
    requires forall id :: id in ids ==> id < |t|
  {
    forall id :: id in ids ==> Load(env, id, t[id]).Ok?
  }

  lemma ResealOneMore(env: Env, t: Table, ids: seq<nat>, s: Progress, id: nat, nonce: nat)
    requires KeyringOk(env) && Resealed(env, t, ids, s) && id < |t| && id !in ids
    ensures var s' := HandleRow(env, s, id, nonce).0;
      && Resealed(env, t, ids + [id], s')
      && (s'.failure.None? <==> s.failure.None? && Load(env, id, t[id]).Ok?)
  {
    ResealOne(env, s, id, nonce);
  }

  lemma {:induction false} ResealedSoFar(env: Env, t: Table, ids: seq<nat>, nonces: Nonces)
    requires KeyringOk(env) && Ascending(ids) && forall id :: id in ids ==> id < |t|
    ensures var s := Visit(Resealing(env, nonces), Progress(t, None), ids);
      Resealed(env, t, ids, s) && (s.failure.None? <==> AllLoad(env, t, ids))
  {
    if ids != [] {
      var n := |ids| - 1;
      var front, id := ids[..n], ids[n];
      assert ids == front + [id] && id !in front && id in ids;
      assert forall x :: x in ids <==> x in front || x == id;
      ResealedSoFar(env, t, front, nonces);
      ResealOneMore(env, t, front, Visit(Resealing(env, nonces), Progress(t, None), front), id, nonces(id));
    }
  }

  /** Handling final rows changes nothing and counts no update. */
  lemma {:induction false} FinalRowsIdle(env: Env, t: Table, ids: seq<nat>, nonces: Nonces)
    requires forall id :: id in ids ==> id < |t| && Final(env, id, t[id])
    ensures Visit(Resealing(env, nonces), Progress(t, None), ids) == Progress(t, None)
    ensures Tallied(Resealing(env, nonces), Progress(t, None), ids) == Tally(|ids|, 0, 0)
  {
    if ids != [] {
      var n := |ids| - 1;
      assert forall x :: x in ids[..n] ==> x in ids;
      FinalRowsIdle(env, t, ids[..n], nonces);
      assert ids[n] in ids;
    }
  }

  ghost function Listed(env: Env, t: Table): seq<nat> {
    Candidates(PendingIn(env), Progress(t, None), 0, |t|)
  }

  lemma ListedArePending(env: Env, t: Table)
    ensures Ascending(Listed(env, t)) && forall id :: id in Listed(env, t) <==> 0 <= id < |t| && Pending(env, t[id])
  {
    CandidatesExact(PendingIn(env), Progress(t, None), 0, |t|);
  }

  /** What a second run lists, the first run left final. */
  lemma RelistedAreFinal(env: Env, t: Table, s: Progress)
    requires Resealed(env, t, Listed(env, t), s) && s.failure.None?
    ensures forall id :: id in Listed(env, s.table) ==> id < |s.table| && Final(env, id, s.table[id])
  {
    ListedArePending(env, t);
    ListedArePending(env, s.table);
  }

  /** The outcome of one undisturbed run. */
  ghost function Backfilled(env: Env, t: Table, nonces: Nonces): Progress {
    Visit(Resealing(env, nonces), Progress(t, None), Listed(env, t))
  }

  ghost function Updates(env: Env, t: Table, nonces: Nonces): nat {
    Tallied(Resealing(env, nonces), Progress(t, None), Listed(env, t)).transitioned
  }

  /** The batch loop of backfillSecrets over a table nobody else writes. */
  method BackfillSecrets(env: Env, t: Table, nonces: Nonces, batch: nat)
    returns (t': Table, updated: nat, failure: Option<Failure>)
    requires batch > 0
    ensures Progress(t', failure) == Backfilled(env, t, nonces) && updated == Updates(env, t, nonces)
  {
    ResealingLocal(env, nonces);
    var p, interrupted, round :=
      KeysetSweep.Run(Progress(t, None), |t|, PendingIn(env), Resealing(env, nonces), batch, _ => false);
    t', updated, failure := p.state.table, p.tally.transitioned, p.state.failure;
  }

  /** MAIN: an undisturbed run changes no row's meaning, succeeds exactly when every listed row can be loaded, and
      after a successful run a second one, with whatever nonces, updates zero rows. */
  lemma SecondRunUpdatesNothing(env: Env, t: Table, nonces: Nonces, nonces': Nonces)
    requires KeyringOk(env)
    ensures var s := Backfilled(env, t, nonces);
      && |s.table| == |t| && (forall j :: 0 <= j < |t| ==> Load(env, j, s.table[j]) == Load(env, j, t[j]))
      && (s.failure.None? <==> forall j :: 0 <= j < |t| && Pending(env, t[j]) ==> Load(env, j, t[j]).Ok?)
      && (s.failure.None? ==>
            Updates(env, s.table, nonces') == 0 && Backfilled(env, s.table, nonces') == Progress(s.table, None))
  {
    var s := Backfilled(env, t, nonces);
    ListedArePending(env, t);
    ResealedSoFar(env, t, Listed(env, t), nonces);
    if s.failure.None? {
      RelistedAreFinal(env, t, s);
      FinalRowsIdle(env, s.table, Listed(env, s.table), nonces');
    }
  }
}
