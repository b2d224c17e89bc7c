/** `PairingService` and `TokenService` as they are written, on the rows in place. A method is one
    stretch between two awaits and takes one step of `Pairing`. */
module PairingService {
  import opened Text
  import opened Pairing
  import opened PairingSafety

  class Service {
    var devices: map<Id, Device>
    var codes: map<string, Code>
    var folders: set<Id>
    var grants: map<(Id, Id), Mode>
    var pendingDavPasswords: map<Id, Stash>
    /** The calls in progress, each suspended at its await. */
    var calls: map<nat, Call>
    var next: Id
    ghost var record: Record

    ghost function Model(): State
      reads this
    {
      State(devices, codes, folders, grants, pendingDavPasswords, calls, next, record)
    }

    constructor ()
      ensures Model() == EMPTY
    {
      devices, codes, folders, grants, pendingDavPasswords, calls, next := map[], map[], {}, map[], map[], map[], 0;
      record := Record({}, {}, map[], [], {}, map[]);
    }

    /** `tries` are the codes drawn at random, one for each attempt. */
    method Mint(tries: seq<string>, secret: Id, permissions: seq<Permission>, now: int, expiresAt: int) returns (reply: Reply)
      requires |tries| == MINT_ATTEMPTS
      modifies this
      ensures Answer(Model(), reply) == MintOn(old(Model()), tries, secret, permissions, now, expiresAt)
    {
      codes := map code | code in codes && !Spent(codes[code], now) :: codes[code];
      var attempt := 0;
      while attempt < |tries| && tries[attempt] in codes
        invariant attempt <= |tries|
        invariant FirstFree(tries, codes) == FirstFree(tries[attempt..], codes)
      {
        attempt := attempt + 1;
      }
      if attempt == |tries| {
        return Failed(UniqueViolation);
      }
      codes := codes[tries[attempt] := Code(next, secret, 0, false, expiresAt, None, None, permissions)];
      next := next + 1;
      reply := Done;
    }

    /** `claim` up to the scrypt check, or to its end when no secret came. */
    method Claim(call: nat, code: string, given: Option<Id>, now: int) returns (reply: Reply)
      requires call !in calls
      modifies this
      ensures Answer(Model(), reply) == ClaimOn(old(Model()), call, code, given, now)
    {
      if code !in codes { return Failed(PairingInvalid); }
      var token := codes[code];
      if token.locked { return Failed(PairingLocked); }
      if token.consumedAt.Some? { return Failed(PairingConsumed); }
      if token.expiresAt <= now { return Failed(PairingExpired); }
      if given.Some? {
        calls := calls[call := Verifying(code, token.id, token.failed, given.value == token.secret, now)];
        return Awaiting;
      }
      reply := Consume(code, token.id, now);
    }

    method Consume(code: string, row: Id, now: int) returns (reply: Reply)
      modifies this`codes, this`devices, this`next, this`record
      ensures Answer(Model(), reply) == ConsumeOn(old(Model()), code, row, now)
    {
      if code !in codes || codes[code].id != row || codes[code].consumedAt.Some? || codes[code].locked || codes[code].expiresAt <= now {
        return Failed(PairingConsumed);
      }
      var deviceId := next;
      codes := codes[code := codes[code].(consumedAt := Some(now), consumedBy := None)];
      devices := devices[deviceId := Device(Pending, 1, None, None, now)];
      codes := codes[code := codes[code].(consumedBy := Some(deviceId))];
      next := next + 1;
      record := record.(paired := record.paired[deviceId := Origin(row, codes[code].permissions)]);
      reply := Claimed(deviceId);
    }

    /** `claim` after the scrypt check. */
    method ClaimAfterCheck(call: nat) returns (reply: Reply)
      requires call in calls && calls[call].Verifying?
      modifies this
      ensures Answer(Model(), reply) == ClaimEndsOn(old(Model()), call)
    {
      var Verifying(code, row, failed, matches, at) := calls[call];
      calls := calls - {call};
      if !matches {
        RegisterFailure(code, row, failed + 1);
        return Failed(if failed + 1 >= MAX_FAILED_ATTEMPTS then PairingLocked else PairingInvalid);
      }
      reply := Consume(code, row, at);
    }

    method RegisterFailure(code: string, row: Id, attempts: nat)
      modifies this`codes, this`record
      ensures Model() == FailureOn(old(Model()), code, row, attempts)
    {
      record := record.(wrong := record.wrong[row := Wrong(Model(), row) + 1]);
      if code in codes && codes[code].id == row {
        codes := codes[code := codes[code].(failed := attempts, locked := attempts >= MAX_FAILED_ATTEMPTS)];
      }
    }

    /** `status` up to the signing of the session. */
    method Poll(call: nat, device: Id, genuine: bool, now: int, expiresAt: int) returns (reply: Reply)
      requires call !in calls
      modifies this`pendingDavPasswords, this`calls
      ensures Answer(Model(), reply) == PollOn(old(Model()), call, device, genuine, now, expiresAt)
    {
      if !genuine || device !in devices { return Failed(NotFound); }
      var row := devices[device];
      if row.status == Pending { return StillPending; }
      if row.status != Active { return Rejected; }
      if device !in pendingDavPasswords { return Failed(PairingExpired); }
      var entry := pendingDavPasswords[device];
      pendingDavPasswords := pendingDavPasswords - {device};
      if now - entry.at > DAV_STASH_TTL_MS { return Failed(PairingExpired); }
      calls := calls[call := Signing(Access(device, row.tokenVersion, expiresAt), Some(entry.password))];
      reply := Awaiting;
    }

    /** `redeemRefreshToken` up to the signing of the session. */
    method Redeem(call: nat, token: RefreshToken, now: int, expiresAt: int) returns (reply: Reply)
      requires call !in calls
      modifies this`calls
      ensures Answer(Model(), reply) == RefreshOn(old(Model()), call, token, now, expiresAt)
    {
      if token.device !in devices || devices[token.device].refresh.None? { return Failed(Unauthenticated); }
      var row := devices[token.device];
      if row.status == Pending { return Failed(DevicePending); }
      if row.status != Active { return Failed(DeviceRevoked); }
      if row.refresh.value.raw != token.raw { return Failed(Unauthenticated); }
      if row.refresh.value.expiresAt < now { return Failed(TokenExpired); }
      calls := calls[call := Signing(Access(token.device, row.tokenVersion, expiresAt), None)];
      reply := Awaiting;
    }

    /** `issueRefreshToken`, after the access token is signed. */
    method IssueRefreshToken(call: nat, refreshExpiresAt: int) returns (reply: Reply)
      requires call in calls && calls[call].Signing?
      modifies this`devices, this`calls, this`next, this`record
      ensures Answer(Model(), reply) == IssueOn(old(Model()), call, refreshExpiresAt)
    {
      var Signing(access, collected) := calls[call];
      var raw := next;
      next := next + 1;
      if access.device in devices {
        devices := devices[access.device := devices[access.device].(refresh := Some(Refresh(raw, refreshExpiresAt)))];
      }
      calls := calls - {call};
      record := record.(access := record.access + {access},
                        handedOut := record.handedOut + (if collected.Some? then [Handed(access.device, collected.value)] else []));
      reply := Issued(access, RefreshToken(access.device, raw), collected);
    }

    /** `approve` up to the scrypt hash. */
    method Approve(call: nat, device: Id) returns (reply: Reply)
      requires call !in calls
      modifies this`calls, this`next
      ensures Answer(Model(), reply) == ApproveOn(old(Model()), call, device)
    {
      if device !in devices { return Failed(NotFound); }
      if devices[device].status == Revoked { return Failed(DeviceRevoked); }
      calls := calls[call := Hashing(device, next)];
      next := next + 1;
      reply := Awaiting;
    }

    /** `approve` after it: the UPDATE and the upserts of one transaction, then the stash. */
    method ApproveAfterHash(call: nat, now: int) returns (reply: Reply)
      requires call in calls && calls[call].Hashing? && OneDevice(Model())
      modifies this`devices, this`grants, this`pendingDavPasswords, this`calls
      ensures Answer(Model(), reply) == ApproveEndsOn(old(Model()), call, now)
    {
      var Hashing(device, password) := calls[call];
      if device in devices {
        var permissions := DefaultPermissionsFor(device);
        devices := devices[device := devices[device].(status := Active, dav := Some(password))];
        Upsert(device, permissions);
      }
      calls := calls - {call};
      pendingDavPasswords := pendingDavPasswords[device := Stash(password, now)];
      reply := Done;
    }

    /** The permissions of the one code this device consumed. */
    method DefaultPermissionsFor(device: Id) returns (permissions: seq<Permission>)
      requires OneDevice(Model())
      ensures permissions == DefaultPermissions(Model(), device)
    {
      permissions := [];
      if exists code | code in codes :: codes[code].consumedBy == Some(device) {
        var code :| code in codes && codes[code].consumedBy == Some(device);
        permissions := codes[code].permissions;
        assert ConsumedBy(Model(), code, device);
      } else {
        assert forall code | ConsumedBy(Model(), code, device) :: code in codes;
      }
    }

    method Upsert(device: Id, permissions: seq<Permission>)
      modifies this`grants
      ensures grants == Upserted(old(grants), device, permissions, folders)
    {
      var i := 0;
      while i < |permissions|
        invariant i <= |permissions|
        invariant grants == Upserted(old(grants), device, permissions[..i], folders)
      {
        assert permissions[..i + 1][..i] == permissions[..i];
        if permissions[i].folder in folders {
          grants := grants[(device, permissions[i].folder) := permissions[i].mode];
        }
        i := i + 1;
      }
      assert permissions[..i] == permissions;
    }

    method Revoke(device: Id)
      modifies this`devices
      ensures Model() == RevokeOn(old(Model()), device)
    {
      if device in devices {
        var row := devices[device];
        devices := devices[device := row.(status := Revoked, tokenVersion := row.tokenVersion + 1, refresh := None)];
      }
    }

    method Reject(device: Id) returns (reply: Reply)
      modifies this`devices, this`pendingDavPasswords
      ensures Answer(Model(), reply) == RejectOn(old(Model()), device)
    {
      if device !in devices { return Failed(NotFound); }
      Revoke(device);
      pendingDavPasswords := pendingDavPasswords - {device};
      reply := Done;
    }

    /** `DELETE FROM devices`, with the foreign keys' consequences. Answers how many rows went. */
    method PruneAbandoned(now: int) returns (count: nat)
      modifies this`devices, this`grants, this`codes
      ensures Model() == PruneOn(old(Model()), now)
      ensures count == |old(devices)| - |devices|
    {
      var gone := set device | device in devices && Abandoned(devices[device], now);
      grants := map key | key in grants && key.0 !in gone :: grants[key];
      codes := map code | code in codes :: Orphaned(codes[code], gone);
      assert devices.Keys == (devices - gone).Keys + gone;
      devices := devices - gone;
      count := |gone|;
    }
  }
}
