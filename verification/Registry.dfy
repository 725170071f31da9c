/** Enrollment tokens, devices and device credentials. Each SQL transaction is one atomic step on the
    tables; row locks and unique indexes are what make them atomic. Times are nanoseconds; the
    database and the server read the same clock. */
module Registry {
  import opened Common

  const MINUTE := 60_000_000_000
  const MAX_EXPIRY := 24 * 60 * MINUTE
  const MAX_REUSABLE_EXPIRY := 90 * 24 * 60 * MINUTE
  const DEFAULT_EXPIRY := 30 * MINUTE
  const KEY_SIZE := 32

  datatype Token = Token(expiresAt: int, reusable: bool, useCount: nat, consumedAt: Option<int>,
                         consumedDevice: Option<nat>, revokedAt: Option<int>)

  datatype Status = Unknown | Online | ConnectionLost | Offline | Revoked

  datatype CredentialStatus = NoCredential | ActiveCredential | RevokedCredential

  datatype Device = Device(installId: nat, status: Status, credentialStatus: CredentialStatus,
                           lastSeen: Option<int>, revokedAt: Option<int>)

  datatype Credential = Credential(publicKey: Bytes, expiresAt: Option<int>, revokedAt: Option<int>)

  /** The primary key is unique per device and key version. */
  datatype CredentialId = CredentialId(device: nat, version: nat)

  /** The past: which token created which device, and when. */
  datatype Creation = Creation(token: nat, device: nat, at: int)

  /** The tables, the unique index on token hashes, the ids handed out so far, and the past. */
  datatype Db = Db(tokens: map<nat, Token>, byHash: map<Bytes, nat>, nextToken: nat,
                   devices: map<nat, Device>, nextDevice: nat,
                   credentials: map<CredentialId, Credential>, created: seq<Creation>)

  const EMPTY := Db(map[], map[], 0, map[], 0, map[], [])

  // ---------------------------------------------------------------------
  // Tokens

  function Lifetime(requested: int, reusable: bool): (d: int)
    ensures 0 < d <= if reusable then 7_776_000_000_000_000 else 86_400_000_000_000
    ensures if 0 < requested <= (if reusable then 7_776_000_000_000_000 else 86_400_000_000_000) then d == requested
            else d == 1_800_000_000_000
  {
    if requested <= 0 || requested > (if reusable then MAX_REUSABLE_EXPIRY else MAX_EXPIRY)
    then DEFAULT_EXPIRY else requested
  }

  /** Fails when the hash is taken. */
  function CreateToken(db: Db, hash: Bytes, requested: int, reusable: bool, now: int): (db': Db) {
    if hash in db.byHash then db else
      var token := Token(now + Lifetime(requested, reusable), reusable, 0, None, None, None);
      db.(tokens := db.tokens[db.nextToken := token], byHash := db.byHash[hash := db.nextToken],
          nextToken := db.nextToken + 1)
  }

  predicate Outstanding(t: Token) {
    t.consumedAt.None? && t.revokedAt.None?
  }

  predicate Revocable(db: Db, id: nat) {
    id in db.tokens && Outstanding(db.tokens[id])
  }

  function RevokeToken(db: Db, id: nat, now: int): (db': Db) {
    if Revocable(db, id) then db.(tokens := db.tokens[id := db.tokens[id].(revokedAt := Some(now))]) else db
  }

  function RevokedIfOutstanding(t: Token, now: int): (t': Token) {
    if Outstanding(t) then t.(revokedAt := Some(now)) else t
  }

  function RevokeAll(db: Db, now: int): (db': Db) {
    db.(tokens := map id | id in db.tokens :: RevokedIfOutstanding(db.tokens[id], now))
  }

  /** The filter of `ListOutstanding`. */
  predicate Listed(t: Token, now: int) {
    t.revokedAt.None? && t.expiresAt > now && (t.reusable || t.consumedAt.None?)
  }

  function ListOutstanding(db: Db, now: int): (ids: set<nat>) {
    set id | id in db.tokens && Listed(db.tokens[id], now)
  }

  // ---------------------------------------------------------------------
  // Enrollment

  datatype Enrollment = Enrolled(device: nat) | TokenInvalid | InstallExists

  predicate InstallTaken(db: Db, installId: nat) {
    exists d :: d in db.devices && db.devices[d].installId == installId
  }

  /** The token check of `Consume`; the hash is missing when the presented token is malformed. */
  predicate TokenUsable(db: Db, hash: Option<Bytes>, now: int) {
    && hash.Some? && hash.value in db.byHash && db.byHash[hash.value] in db.tokens
    && var t := db.tokens[db.byHash[hash.value]];
       t.consumedAt.None? && t.revokedAt.None? && now <= t.expiresAt
  }

  function Used(t: Token, device: nat, now: int): (t': Token) {
    if t.reusable then t.(useCount := t.useCount + 1)
    else t.(consumedAt := Some(now), consumedDevice := Some(device), useCount := 1)
  }

  function Consume(db: Db, hash: Option<Bytes>, installId: nat, key: Bytes, now: int): (r: (Db, Enrollment)) {
    if |key| != KEY_SIZE || !TokenUsable(db, hash, now) then (db, TokenInvalid)
    else if InstallTaken(db, installId) then (db, InstallExists)
    else
      var token, device := db.byHash[hash.value], db.nextDevice;
      (Db(db.tokens[token := Used(db.tokens[token], device, now)], db.byHash, db.nextToken,
          db.devices[device := Device(installId, Unknown, ActiveCredential, None, None)], device + 1,
          db.credentials[CredentialId(device, 1) := Credential(key, None, None)],
          db.created + [Creation(token, device, now)]),
       Enrolled(device))
  }

  // ---------------------------------------------------------------------
  // Devices

  datatype Deletion = Deleted | HasHistory | NotFound

  predicate Deletable(db: Db, id: nat) {
    id in db.devices && db.devices[id].lastSeen.None?
  }

  function Forget(t: Token, device: nat): (t': Token) {
    if t.consumedDevice == Some(device) then t.(consumedDevice := None) else t
  }

  /** Credentials cascade; the consumed token stays, without its device. */
  function DeleteDevice(db: Db, id: nat): (db': Db) {
    if !Deletable(db, id) then db else
      db.(devices := db.devices - {id},
          credentials := map c | c in db.credentials && c.device != id :: db.credentials[c],
          tokens := map t | t in db.tokens :: Forget(db.tokens[t], id))
  }

  function RevokedCredentialRow(c: Credential, now: int): (c': Credential) {
    if c.revokedAt.None? then c.(revokedAt := Some(now)) else c
  }

  function RevokeDevice(db: Db, id: nat, now: int): (db': Db) {
    if id !in db.devices then db else
      db.(devices := db.devices[id := db.devices[id].(status := Revoked, credentialStatus := RevokedCredential,
                                                      revokedAt := Some(now))],
          credentials := map c | c in db.credentials ::
            if c.device == id then RevokedCredentialRow(db.credentials[c], now) else db.credentials[c])
  }

  /** `UpdateStatusOnly`. */
  function SetStatus(db: Db, id: nat, status: Status): (db': Db) {
    if id !in db.devices then db else db.(devices := db.devices[id := db.devices[id].(status := status)])
  }

  /** `UpdateConnectivity`, on connect and on every heartbeat. */
  function Seen(db: Db, id: nat, status: Status, now: int): (db': Db) {
    if id !in db.devices then db else
      db.(devices := db.devices[id := db.devices[id].(status := status, lastSeen := Some(now))])
  }

  // ---------------------------------------------------------------------
  // The tables as mutable state

  class Tables {
    var tokens: map<nat, Token>
    var byHash: map<Bytes, nat>
    var nextToken: nat
    var devices: map<nat, Device>
    var nextDevice: nat
    var credentials: map<CredentialId, Credential>
    ghost var created: seq<Creation>

    ghost function Now(): Db
      reads this
    {
      Db(tokens, byHash, nextToken, devices, nextDevice, credentials, created)
    }

    constructor ()
      ensures Now() == EMPTY
    {
      tokens, byHash, nextToken := map[], map[], 0;
      devices, nextDevice, credentials := map[], 0, map[];
      created := [];
    }

    method Create(hash: Bytes, requested: int, reusable: bool, now: int) returns (id: Option<nat>)
      modifies this
      ensures Now() == CreateToken(old(Now()), hash, requested, reusable, now)
      ensures Now() == Step(old(Now()), Event.Create(hash, requested, reusable, now))
      ensures id == if hash in old(byHash) then None else Some(old(nextToken))
    {
      if hash in byHash {
        return None;
      }
      var ceiling := if reusable then MAX_REUSABLE_EXPIRY else MAX_EXPIRY;
      var expiresIn := requested;
      if expiresIn <= 0 || expiresIn > ceiling {
        expiresIn := DEFAULT_EXPIRY;
      }
      tokens := tokens[nextToken := Token(now + expiresIn, reusable, 0, None, None, None)];
      byHash := byHash[hash := nextToken];
      id := Some(nextToken);
      nextToken := nextToken + 1;
    }

    method Revoke(id: nat, now: int) returns (ok: bool)
      modifies this
      ensures Now() == RevokeToken(old(Now()), id, now) && Now() == Step(old(Now()), Event.Revoke(id, now))
      ensures ok <==> id in old(tokens) && old(tokens)[id].consumedAt.None? && old(tokens)[id].revokedAt.None?
      ensures ok ==> id in tokens && tokens[id].revokedAt == Some(now)
      ensures !ok ==> tokens == old(tokens)
    {
      ok := id in tokens && tokens[id].consumedAt.None? && tokens[id].revokedAt.None?;
      if ok {
        tokens := tokens[id := tokens[id].(revokedAt := Some(now))];
      }
    }

    method RevokeAllOutstanding(now: int) returns (affected: nat)
      modifies this
      ensures Now() == RevokeAll(old(Now()), now) && Now() == Step(old(Now()), RevokeAllTokens(now))
      ensures affected == |set id | id in old(tokens) && Outstanding(old(tokens)[id])|
    {
      affected := |set id | id in tokens && Outstanding(tokens[id])|;
      tokens := map id | id in tokens :: RevokedIfOutstanding(tokens[id], now);
    }

    method Enroll(hash: Option<Bytes>, installId: nat, key: Bytes, now: int) returns (result: Enrollment)
      modifies this
      ensures (Now(), result) == Consume(old(Now()), hash, installId, key, now)
      ensures Now() == Step(old(Now()), Event.Enroll(hash, installId, key, now))
    {
      if |key| != KEY_SIZE || hash.None? || hash.value !in byHash || byHash[hash.value] !in tokens {
        return TokenInvalid;
      }
      var id := byHash[hash.value];
      var token := tokens[id];
      if token.consumedAt.Some? || token.revokedAt.Some? || now > token.expiresAt {
        return TokenInvalid;
      }
      if exists d :: d in devices && devices[d].installId == installId {
        return InstallExists;
      }
      var device := nextDevice;
      nextDevice := nextDevice + 1;
      devices := devices[device := Device(installId, Unknown, ActiveCredential, None, None)];
      credentials := credentials[CredentialId(device, 1) := Credential(key, None, None)];
      if token.reusable {
        tokens := tokens[id := token.(useCount := token.useCount + 1)];
      } else {
        tokens := tokens[id := token.(consumedAt := Some(now), consumedDevice := Some(device), useCount := 1)];
      }
      created := created + [Creation(id, device, now)];
      return Enrolled(device);
    }

    method Delete(id: nat) returns (result: Deletion)
      modifies this
      ensures Now() == DeleteDevice(old(Now()), id) && Now() == Step(old(Now()), Event.Delete(id))
      ensures result == if Deletable(old(Now()), id) then Deleted
                        else if id in old(devices) then HasHistory else NotFound
    {
      if id !in devices {
        return NotFound;
      }
      if devices[id].lastSeen.Some? {
        return HasHistory;
      }
      devices := devices - {id};
      credentials := map c | c in credentials && c.device != id :: credentials[c];
      tokens := map t | t in tokens :: Forget(tokens[t], id);
      return Deleted;
    }

    method RevokeById(id: nat, now: int)
      modifies this
      ensures Now() == RevokeDevice(old(Now()), id, now) && Now() == Step(old(Now()), RevokeOne(id, now))
    {
      if id in devices {
        devices := devices[id := devices[id].(status := Revoked, credentialStatus := RevokedCredential,
                                              revokedAt := Some(now))];
        credentials := map c | c in credentials ::
          if c.device == id then RevokedCredentialRow(credentials[c], now) else credentials[c];
      }
    }
  }

  // ---------------------------------------------------------------------
  // Runs

  datatype Event =
    | Create(hash: Bytes, requested: int, reusable: bool, now: int)
    | Revoke(token: nat, now: int)
    | RevokeAllTokens(now: int)
    | Enroll(presented: Option<Bytes>, installId: nat, key: Bytes, now: int)
    | Delete(device: nat)
    | RevokeOne(device: nat, now: int)
    | Heartbeat(device: nat, status: Status, now: int)
    | Disconnect(device: nat, status: Status)

  function Step(db: Db, e: Event): (db': Db) {
    match e
    case Create(hash, requested, reusable, now) => CreateToken(db, hash, requested, reusable, now)
    case Revoke(id, now) => RevokeToken(db, id, now)
    case RevokeAllTokens(now) => RevokeAll(db, now)
    case Enroll(hash, installId, key, now) => Consume(db, hash, installId, key, now).0
    case Delete(id) => DeleteDevice(db, id)
    case RevokeOne(id, now) => RevokeDevice(db, id, now)
    case Heartbeat(id, status, now) => Seen(db, id, status, now)
    case Disconnect(id, status) => SetStatus(db, id, status)
  }

  function Run(db: Db, es: seq<Event>): (db': Db) {
    if es == [] then db else Step(Run(db, es[..|es| - 1]), es[|es| - 1])
  }

  /** Devices ever created from a token, including deleted ones. */
  function Uses(created: seq<Creation>, token: nat): (n: nat) {
    if created == [] then 0 else
      Uses(created[..|created| - 1], token) + if created[|created| - 1].token == token then 1 else 0
  }

  lemma {:induction false} UsesAppend(created: seq<Creation>, c: Creation, token: nat)
    ensures Uses(created + [c], token) == Uses(created, token) + if c.token == token then 1 else 0
  {
  }

  lemma {:induction false} UnusedToken(created: seq<Creation>, token: nat)
    requires forall i :: 0 <= i < |created| ==> created[i].token != token
    ensures Uses(created, token) == 0
  {
    if created != [] {
      UnusedToken(created[..|created| - 1], token);
    }
  }

  // ---------------------------------------------------------------------
  // What every run keeps about tokens

  ghost predicate TokenOk(created: seq<Creation>, id: nat, t: Token) {
    && t.useCount == Uses(created, id)
    && (t.reusable ==> t.consumedAt.None?)
    && (!t.reusable ==> t.useCount == if t.consumedAt.Some? then 1 else 0)
  }

  ghost predicate CreationOk(db: Db, c: Creation) {
    c.token in db.tokens && c.at <= db.tokens[c.token].expiresAt
  }

  ghost predicate TokensOk(db: Db) {
    && (forall id :: id in db.tokens ==> id < db.nextToken)
    && (forall id :: id in db.tokens ==> TokenOk(db.created, id, db.tokens[id]))
    && (forall h :: h in db.byHash ==> db.byHash[h] in db.tokens)
    && (forall i :: 0 <= i < |db.created| ==> CreationOk(db, db.created[i]))
  }

  lemma {:induction false} CreateKeepsTokens(db: Db, hash: Bytes, requested: int, reusable: bool, now: int)
    requires TokensOk(db)
    ensures TokensOk(CreateToken(db, hash, requested, reusable, now))
  {
    forall i | 0 <= i < |db.created| ensures db.created[i].token != db.nextToken {
      assert CreationOk(db, db.created[i]);
    }
    UnusedToken(db.created, db.nextToken);
  }

  /** Steps that change neither a token's count nor its expiry nor the past. */
  lemma {:induction false} SameUseKeepsTokens(db: Db, db': Db)
    requires TokensOk(db)
    requires db'.tokens.Keys == db.tokens.Keys && db'.byHash == db.byHash
    requires db'.nextToken == db.nextToken && db'.created == db.created
    requires forall id :: id in db.tokens ==> SameUse(db.tokens[id], db'.tokens[id])
    ensures TokensOk(db')
  {
  }

  ghost predicate SameUse(t: Token, t': Token) {
    && t'.useCount == t.useCount && t'.reusable == t.reusable
    && t'.consumedAt == t.consumedAt && t'.expiresAt == t.expiresAt
  }

  lemma {:induction false} ConsumeKeepsTokens(db: Db, hash: Option<Bytes>, installId: nat, key: Bytes, now: int)
    requires TokensOk(db)
    ensures TokensOk(Consume(db, hash, installId, key, now).0)
  {
    var (db', result) := Consume(db, hash, installId, key, now);
    if result.Enrolled? {
      var token := db.byHash[hash.value];
      var c := Creation(token, db.nextDevice, now);
      forall id | id in db'.tokens ensures TokenOk(db'.created, id, db'.tokens[id]) {
        UsesAppend(db.created, c, id);
        assert TokenOk(db.created, id, db.tokens[id]);
      }
      forall i | 0 <= i < |db'.created| ensures CreationOk(db', db'.created[i]) {
        if i < |db.created| {
          assert CreationOk(db, db.created[i]);
        }
      }
    }
  }

  lemma {:induction false} StepKeepsTokens(db: Db, e: Event)
    requires TokensOk(db)
    ensures TokensOk(Step(db, e))
  {
    match e {
      case Create(hash, requested, reusable, now) => CreateKeepsTokens(db, hash, requested, reusable, now);
      case Enroll(hash, installId, key, now) => ConsumeKeepsTokens(db, hash, installId, key, now);
      case _ => SameUseKeepsTokens(db, Step(db, e));
    }
  }

  /** Over every run: a token's use count is the number of devices it ever created, a single-use token
      created at most one, deleted or not, and none was created after the expiry. */
  lemma {:induction false} TokenUseBounded(es: seq<Event>)
    ensures var db := Run(EMPTY, es);
      && TokensOk(db)
      && (forall id :: id in db.tokens ==> db.tokens[id].useCount == Uses(db.created, id))
      && (forall id :: id in db.tokens && !db.tokens[id].reusable ==> Uses(db.created, id) <= 1)
  {
    if es != [] {
      TokenUseBounded(es[..|es| - 1]);
      StepKeepsTokens(Run(EMPTY, es[..|es| - 1]), es[|es| - 1]);
    }
    var db := Run(EMPTY, es);
    forall id | id in db.tokens
      ensures db.tokens[id].useCount == Uses(db.created, id)
      ensures !db.tokens[id].reusable ==> Uses(db.created, id) <= 1
    {
      assert TokenOk(db.created, id, db.tokens[id]);
    }
  }

  // ---------------------------------------------------------------------
  // Dead tokens stay dead

  ghost predicate Dead(db: Db, id: nat) {
    id in db.tokens && !Outstanding(db.tokens[id])
  }

  lemma {:induction false} DeadStep(db: Db, id: nat, e: Event)
    requires TokensOk(db) && Dead(db, id)
    ensures Dead(Step(db, e), id) && Uses(Step(db, e).created, id) == Uses(db.created, id)
  {
  }

  /** A revoked or consumed token never creates another device. */
  lemma {:induction false} DeadForever(db: Db, id: nat, es: seq<Event>)
    requires TokensOk(db) && Dead(db, id)
    ensures Dead(Run(db, es), id) && Uses(Run(db, es).created, id) == Uses(db.created, id)
    ensures TokensOk(Run(db, es))
  {
    if es != [] {
      var init := es[..|es| - 1];
      DeadForever(db, id, init);
      DeadStep(Run(db, init), id, es[|es| - 1]);
      StepKeepsTokens(Run(db, init), es[|es| - 1]);
    }
  }

  /** Emergency revocation: no token that exists then is ever accepted again, at any time. */
  lemma {:induction false} RevokeAllIsFinal(es: seq<Event>, now: int, more: seq<Event>, hash: Bytes, at: int)
    requires var db := Run(EMPTY, es);
      hash in db.byHash
    ensures !TokenUsable(Run(RevokeAll(Run(EMPTY, es), now), more), Some(hash), at)
  {
    var db := Run(EMPTY, es);
    TokenUseBounded(es);
    var revoked := RevokeAll(db, now);
    StepKeepsTokens(db, RevokeAllTokens(now));
    DeadForever(revoked, db.byHash[hash], more);
    HashesKept(revoked, hash, more);
  }

  lemma {:induction false} HashesKept(db: Db, hash: Bytes, es: seq<Event>)
    requires hash in db.byHash
    ensures hash in Run(db, es).byHash && Run(db, es).byHash[hash] == db.byHash[hash]
  {
    if es != [] {
      HashesKept(db, hash, es[..|es| - 1]);
    }
  }

  /** Revoking one outstanding token, and nothing else: it sets the time of revocation. */
  lemma {:induction false} RevokeExactly(db: Db, id: nat, now: int)
    ensures var after := RevokeToken(db, id, now);
      if id in db.tokens && db.tokens[id].consumedAt.None? && db.tokens[id].revokedAt.None?
      then after == db.(tokens := db.tokens[id := db.tokens[id].(revokedAt := Some(now))])
      else after == db
  {
  }

  /** A token whose revocation succeeded is never accepted again, under any hash, at any time and whatever
      happens next, and creates no further device. */
  lemma {:induction false} RevokeIsFinal(es: seq<Event>, id: nat, now: int, more: seq<Event>)
    requires var db := Run(EMPTY, es);
      id in db.tokens && db.tokens[id].consumedAt.None? && db.tokens[id].revokedAt.None?
    ensures var db, after := Run(EMPTY, es), Run(RevokeToken(Run(EMPTY, es), id, now), more);
      && Uses(after.created, id) == Uses(db.created, id)
      && forall hash, at :: hash in after.byHash && after.byHash[hash] == id ==> !TokenUsable(after, Some(hash), at)
  {
    var db := Run(EMPTY, es);
    TokenUseBounded(es);
    StepKeepsTokens(db, Revoke(id, now));
    RevokeExactly(db, id, now);
    DeadForever(RevokeToken(db, id, now), id, more);
  }

  /** Emergency revocation touches exactly the outstanding tokens. */
  lemma {:induction false} RevokeAllExactly(db: Db, now: int)
    ensures var after := RevokeAll(db, now);
      && after == db.(tokens := after.tokens) && after.tokens.Keys == db.tokens.Keys
      && forall id :: id in db.tokens ==>
           after.tokens[id] == if db.tokens[id].consumedAt.None? && db.tokens[id].revokedAt.None?
                               then db.tokens[id].(revokedAt := Some(now)) else db.tokens[id]
  {
  }

  /** A new token is what was asked for, and can be used from then until it expires. */
  lemma {:induction false} CreateExactly(db: Db, hash: Bytes, requested: int, reusable: bool, now: int, at: int)
    requires hash !in db.byHash
    ensures var after, id := CreateToken(db, hash, requested, reusable, now), db.nextToken;
      && after == db.(tokens := after.tokens, byHash := db.byHash[hash := id], nextToken := id + 1)
      && after.tokens ==
           db.tokens[id := Token(now + Lifetime(requested, reusable), reusable, 0, None, None, None)]
      && (TokenUsable(after, Some(hash), at) <==> at <= now + Lifetime(requested, reusable))
  {
  }

  /** Exactly when an enrollment succeeds, and why it does not; a refused one changes nothing. */
  lemma {:induction false} EnrollIff(db: Db, hash: Option<Bytes>, installId: nat, key: Bytes, now: int)
    ensures var (after, result) := Consume(db, hash, installId, key, now);
      var accepted :=
        && |key| == 32 && hash.Some? && hash.value in db.byHash && db.byHash[hash.value] in db.tokens
        && var t := db.tokens[db.byHash[hash.value]];
           t.consumedAt.None? && t.revokedAt.None? && now <= t.expiresAt;
      var taken := exists d :: d in db.devices && db.devices[d].installId == installId;
      && (result.Enrolled? <==> accepted && !taken)
      && (result == InstallExists <==> accepted && taken)
      && (result == TokenInvalid <==> !accepted)
      && (!result.Enrolled? ==> after == db)
  {
  }

  /** What a successful one changes. */
  lemma {:induction false} EnrollExactly(db: Db, hash: Option<Bytes>, installId: nat, key: Bytes, now: int)
    requires Consume(db, hash, installId, key, now).1.Enrolled?
    ensures var (after, result) := Consume(db, hash, installId, key, now);
      var id, d := db.byHash[hash.value], db.nextDevice;
      var t := db.tokens[id];
      && result == Enrolled(d) && after.nextDevice == d + 1
      && after.devices == db.devices[d := Device(installId, Unknown, ActiveCredential, None, None)]
      && after.credentials == db.credentials[CredentialId(d, 1) := Credential(key, None, None)]
      && after.tokens == db.tokens[id := if t.reusable then t.(useCount := t.useCount + 1)
                                         else t.(consumedAt := Some(now), consumedDevice := Some(d), useCount := 1)]
      && after.byHash == db.byHash && after.nextToken == db.nextToken
  {
  }

  /** The list shows exactly the tokens that an enrollment with a fresh install id would be accepted
      with, except at the very instant of expiry, when it is still accepted but no longer shown. */
  lemma {:induction false} ListingAgrees(es: seq<Event>, hash: Bytes, installId: nat, key: Bytes, now: int)
    requires hash in Run(EMPTY, es).byHash
    requires !InstallTaken(Run(EMPTY, es), installId) && |key| == KEY_SIZE
    ensures var db := Run(EMPTY, es);
      var id := db.byHash[hash];
      && id in db.tokens
      && (id in ListOutstanding(db, now) <==>
            Consume(db, Some(hash), installId, key, now).1.Enrolled? && now != db.tokens[id].expiresAt)
  {
    TokenUseBounded(es);
    var db := Run(EMPTY, es);
    var id := db.byHash[hash];
    assert TokenOk(db.created, id, db.tokens[id]);
  }

  // ---------------------------------------------------------------------
  // What every run keeps about devices

  ghost predicate InstallsUnique(devices: map<nat, Device>) {
    forall d, e :: d in devices && e in devices && d != e ==> devices[d].installId != devices[e].installId
  }

  /** Every live device has exactly one credential row. */
  ghost predicate OneCredentialEach(db: Db) {
    && (forall d :: d in db.devices ==> CredentialId(d, 1) in db.credentials)
    && (forall c :: c in db.credentials ==> c.device in db.devices && c.version == 1)
  }

  ghost predicate DevicesOk(db: Db) {
    && (forall d :: d in db.devices ==> d < db.nextDevice)
    && InstallsUnique(db.devices)
    && OneCredentialEach(db)
  }

  lemma {:induction false} StepKeepsDevices(db: Db, e: Event)
    requires DevicesOk(db)
    ensures DevicesOk(Step(db, e))
  {
  }

  /** Over every run live devices have distinct install ids and exactly one credential each. */
  lemma {:induction false} DevicesDistinct(es: seq<Event>)
    ensures DevicesOk(Run(EMPTY, es))
  {
    if es != [] {
      DevicesDistinct(es[..|es| - 1]);
      StepKeepsDevices(Run(EMPTY, es[..|es| - 1]), es[|es| - 1]);
    }
  }

  /** Deleting a device that was never seen removes it and its credentials, keeps every token with its
      uses, and nothing else changes; a device that was seen, or is unknown, is left alone. */
  lemma {:induction false} DeleteExactly(db: Db, id: nat)
    ensures var after := DeleteDevice(db, id);
      if id in db.devices && db.devices[id].lastSeen.None? then
        && after.devices == db.devices - {id}
        && (forall c :: c in after.credentials <==> c in db.credentials && c.device != id)
        && (forall c :: c in after.credentials ==> after.credentials[c] == db.credentials[c])
        && after.tokens.Keys == db.tokens.Keys
        && (forall t :: t in db.tokens ==>
              after.tokens[t] == if db.tokens[t].consumedDevice == Some(id)
                                 then db.tokens[t].(consumedDevice := None) else db.tokens[t])
        && after == db.(devices := after.devices, credentials := after.credentials, tokens := after.tokens)
      else after == db
  {
  }

  /** A connect or heartbeat writes status and time of one device, a disconnect its status only. */
  lemma {:induction false} StatusWritten(db: Db, id: nat, status: Status, now: int)
    requires id in db.devices
    ensures Step(db, Heartbeat(id, status, now)) ==
      db.(devices := db.devices[id := db.devices[id].(status := status, lastSeen := Some(now))])
    ensures Step(db, Disconnect(id, status)) == db.(devices := db.devices[id := db.devices[id].(status := status)])
  {
  }

  ghost predicate SeenDevice(db: Db, id: nat) {
    id in db.devices && db.devices[id].lastSeen.Some? && id < db.nextDevice
  }

  lemma {:induction false} SeenStep(db: Db, id: nat, e: Event)
    requires SeenDevice(db, id)
    ensures SeenDevice(Step(db, e), id) && Step(db, e).devices[id].installId == db.devices[id].installId
  {
  }

  lemma {:induction false} SeenStays(db: Db, id: nat, es: seq<Event>)
    requires SeenDevice(db, id)
    ensures SeenDevice(Run(db, es), id) && Run(db, es).devices[id].installId == db.devices[id].installId
  {
    if es != [] {
      SeenStays(db, id, es[..|es| - 1]);
      SeenStep(Run(db, es[..|es| - 1]), id, es[|es| - 1]);
    }
  }

  /** A device that has ever been seen is never deleted, and its install id stays taken. */
  lemma {:induction false} SeenForever(es: seq<Event>, id: nat, status: Status, now: int, more: seq<Event>)
    requires id in Run(EMPTY, es).devices
    ensures var db := Run(Step(Run(EMPTY, es), Heartbeat(id, status, now)), more);
      id in db.devices && db.devices[id].installId == Run(EMPTY, es).devices[id].installId
  {
    DevicesDistinct(es);
    SeenStays(Step(Run(EMPTY, es), Heartbeat(id, status, now)), id, more);
  }

  // ---------------------------------------------------------------------
  // Revocation

  predicate Usable(c: Credential, now: int) {
    c.revokedAt.None? && (c.expiresAt.None? || c.expiresAt.value > now)
  }

  /** `ActiveCredentialPublicKey`: the usable credential with the highest version. */
  ghost predicate IsActiveKey(db: Db, id: nat, now: int, key: Bytes) {
    exists v ::
      && CredentialId(id, v) in db.credentials && Usable(db.credentials[CredentialId(id, v)], now)
      && db.credentials[CredentialId(id, v)].publicKey == key
      && forall w ::
           CredentialId(id, w) in db.credentials && Usable(db.credentials[CredentialId(id, w)], now) ==> w <= v
  }

  /** The device lookup of the handshake. */
  ghost predicate LookupPasses(db: Db, id: nat, installId: nat) {
    && id in db.devices && db.devices[id].installId == installId
    && db.devices[id].status != Revoked && db.devices[id].credentialStatus == ActiveCredential
  }

  /** The later key lookup and signature check; Ed25519 is the parameter `verify`. */
  ghost predicate KeyPasses(db: Db, id: nat, now: int, verify: (Bytes, Bytes, Bytes) -> bool,
                            nonce: Bytes, signature: Bytes) {
    exists key :: IsActiveKey(db, id, now, key) && |key| == KEY_SIZE && verify(key, nonce, signature)
  }

  /** An enrollment that succeeds creates a device that can authenticate with the key it presented,
      and with no other. */
  lemma {:induction false} EnrolledCanAuthenticate(es: seq<Event>, hash: Option<Bytes>, installId: nat,
                                                   key: Bytes, now: int, other: Bytes,
                                                   verify: (Bytes, Bytes, Bytes) -> bool, nonce: Bytes,
                                                   signature: Bytes)
    requires Consume(Run(EMPTY, es), hash, installId, key, now).1.Enrolled?
    ensures var (db, result) := Consume(Run(EMPTY, es), hash, installId, key, now);
      && LookupPasses(db, result.device, installId) && |key| == KEY_SIZE
      && (IsActiveKey(db, result.device, now, other) <==> other == key)
      && (KeyPasses(db, result.device, now, verify, nonce, signature) <==> verify(key, nonce, signature))
  {
    DevicesDistinct(es);
    var (db, result) := Consume(Run(EMPTY, es), hash, installId, key, now);
    var device := Run(EMPTY, es).nextDevice;
    assert Usable(db.credentials[CredentialId(device, 1)], now);
    forall v | CredentialId(device, v) in db.credentials ensures v == 1 {
      assert v == 1 || CredentialId(device, v) in Run(EMPTY, es).credentials;
    }
    assert IsActiveKey(db, device, now, key);
  }

  /** Revoking a device marks its row and its unrevoked credentials, and nothing else. */
  lemma {:induction false} RevokeDeviceExactly(db: Db, id: nat, now: int)
    requires id in db.devices
    ensures var after := RevokeDevice(db, id, now);
      && after == db.(devices := after.devices, credentials := after.credentials)
      && after.devices == db.devices[id := db.devices[id].(status := Revoked, credentialStatus := RevokedCredential,
                                                           revokedAt := Some(now))]
      && after.credentials.Keys == db.credentials.Keys
      && forall c :: c in db.credentials ==>
           after.credentials[c] == if c.device == id && db.credentials[c].revokedAt.None?
                                   then db.credentials[c].(revokedAt := Some(now)) else db.credentials[c]
  {
  }

  /** A revoked device: neither its row nor any of its credentials can authenticate. */
  ghost predicate Barred(db: Db, id: nat) {
    && id < db.nextDevice
    && (id in db.devices ==> db.devices[id].credentialStatus == RevokedCredential)
    && (forall c :: c in db.credentials && c.device == id ==> db.credentials[c].revokedAt.Some?)
  }

  lemma {:induction false} BarredStep(db: Db, id: nat, e: Event)
    requires Barred(db, id)
    ensures Barred(Step(db, e), id)
  {
  }

  lemma {:induction false} BarredForever(db: Db, id: nat, es: seq<Event>)
    requires Barred(db, id)
    ensures Barred(Run(db, es), id)
  {
    if es != [] {
      BarredForever(db, id, es[..|es| - 1]);
      BarredStep(Run(db, es[..|es| - 1]), id, es[|es| - 1]);
    }
  }

  /** Revocation is permanent: after it no device lookup and no key lookup for that id ever passes,
      whatever status heartbeats and disconnects write. So a handshake fails even when its device
      lookup was before the revocation and only its key lookup comes after. */
  lemma {:induction false} RevocationPermanent(es: seq<Event>, id: nat, now: int, more: seq<Event>,
                                               verify: (Bytes, Bytes, Bytes) -> bool)
    requires id in Run(EMPTY, es).devices
    ensures var db := Run(RevokeDevice(Run(EMPTY, es), id, now), more);
      && (forall installId :: !LookupPasses(db, id, installId))
      && (forall at, nonce, signature :: !KeyPasses(db, id, at, verify, nonce, signature))
  {
    DevicesDistinct(es);
    BarredForever(RevokeDevice(Run(EMPTY, es), id, now), id, more);
    var db := Run(RevokeDevice(Run(EMPTY, es), id, now), more);
    forall at, nonce, signature ensures !KeyPasses(db, id, at, verify, nonce, signature) {
      forall key ensures !IsActiveKey(db, id, at, key) {
      }
    }
  }
}
