/** What an approval lets a device reach: never more than the code was minted with. */
module PairingGrants {
  import opened Text
  import opened Pairing
  import opened Revocation
  import opened PairingSafety

  /** The mode the last entry for the folder asks for. */
  function LastMode(permissions: seq<Permission>, folder: Id): (mode: Option<Mode>)
    ensures mode.Some? ==> exists p | p in permissions :: p.folder == folder && p.mode == mode.value
  {
    if permissions == [] then None
    else if permissions[|permissions| - 1].folder == folder then Some(permissions[|permissions| - 1].mode)
    else LastMode(permissions[..|permissions| - 1], folder)
  }

  /** The upserts change exactly the entries named for folders that exist, each to its last mode. */
  lemma {:induction false} UpsertedAt(grants: map<(Id, Id), Mode>, device: Id, permissions: seq<Permission>, folders: set<Id>, key: (Id, Id))
    ensures var asked := LastMode(permissions, key.1);
      var after := Upserted(grants, device, permissions, folders);
      if key.0 == device && key.1 in folders && asked.Some? then key in after && after[key] == asked.value
      else (key in after <==> key in grants) && (key in after ==> after[key] == grants[key])
    decreases |permissions|
  {
    if permissions != [] {
      UpsertedAt(grants, device, permissions[..|permissions| - 1], folders, key);
    }
  }

  /** The device and the folder exist, and the mode was set by the operator or is the one the
      device's code was minted with. */
  ghost predicate Granted(s: State, key: (Id, Id))
    requires key in s.grants
  {
    && key.0 in s.devices && key.1 in s.folders
    && (key in s.record.chosen
        || (key.0 in s.record.paired && LastMode(s.record.paired[key.0].permissions, key.1) == Some(s.grants[key])))
  }

  ghost predicate Justified(s: State) {
    forall key | key in s.grants :: Granted(s, key)
  }

  lemma DefaultsComeFromTheCode(s: State, device: Id)
    requires OneDevice(s)
    ensures DefaultPermissions(s, device) == []
         || (device in s.record.paired && DefaultPermissions(s, device) == s.record.paired[device].permissions)
  {
    hide Rows, Pairs, Spends;
  }

  /** Approving writes exactly the mint-time snapshot, restricted to the folders that still exist. */
  lemma ApprovalGrantsTheSnapshot(s: State, call: nat, now: int, key: (Id, Id))
    requires OneDevice(s) && call in s.calls && s.calls[call].Hashing? && s.calls[call].device in s.devices
    ensures var after := ApproveEndsOn(s, call, now).state;
      var asked := LastMode(DefaultPermissions(s, s.calls[call].device), key.1);
      if key.0 == s.calls[call].device && key.1 in s.folders && asked.Some? then key in after.grants && after.grants[key] == asked.value
      else (key in after.grants <==> key in s.grants) && (key in after.grants ==> after.grants[key] == s.grants[key])
    ensures forall code | ConsumedBy(s, code, s.calls[call].device) ::
      DefaultPermissions(s, s.calls[call].device) == s.codes[code].permissions
  {
    UpsertedAt(s.grants, s.calls[call].device, DefaultPermissions(s, s.calls[call].device), s.folders, key);
    hide Rows, Pairs, Spends;
  }

  lemma ApproveKeepsJustified(s: State, call: nat, now: int)
    requires OneDevice(s) && Justified(s) && call in s.calls && s.calls[call].Hashing?
    ensures Justified(ApproveEndsOn(s, call, now).state)
  {
    var after := ApproveEndsOn(s, call, now).state;
    var device := s.calls[call].device;
    DefaultsComeFromTheCode(s, device);
    hide OneDevice, DefaultPermissions, Upserted, LastMode;
    if device in s.devices {
      forall key | key in after.grants ensures Granted(after, key) {
        UpsertedAt(s.grants, device, DefaultPermissions(s, device), s.folders, key);
        NoModeOfNothing(key.1);
      }
    }
  }

  lemma NoModeOfNothing(folder: Id)
    ensures LastMode([], folder) == None
  {}

  lemma ChoiceKeepsJustified(s: State, device: Id, permissions: seq<Permission>)
    requires Justified(s)
    ensures Justified(SetPermissionsOn(s, device, permissions).state)
  {
    hide Upserted;
    var after := SetPermissionsOn(s, device, permissions).state;
    if after != s {
      forall key | key in after.grants ensures Granted(after, key) {
        UpsertedAt(s.grants, device, permissions, s.folders, key);
      }
    }
  }

  lemma RemovalKeepsJustified(s: State, gone: set<Id>)
    requires Justified(s)
    ensures Justified(Without(s, gone))
  {
    hide LastMode;
  }

  lemma HousekeepingKeepsJustified(s: State, e: Event)
    requires Enabled(s, e) && ByHousekeeping(e) && Justified(s)
    ensures Justified(Step(s, e))
  {
    if e.SetPermissions? {
      ChoiceKeepsJustified(s, e.device, e.permissions);
    } else if e.Delete? && e.device in s.devices {
      assert Justified(RevokeOn(s, e.device)) by { hide LastMode; }
      RemovalKeepsJustified(RevokeOn(s, e.device), {e.device});
    } else if e.Prune? {
      RemovalKeepsJustified(s, set device | device in s.devices && Abandoned(s.devices[device], e.now));
    }
    hide LastMode, Upserted, Without;
  }

  /** Grants and choices stay, and every device and folder that had a grant stays with its origin. */
  ghost predicate GrantsKept(s: State, s': State) {
    && s'.grants == s.grants && s'.folders == s.folders && s'.record.chosen == s.record.chosen
    && (forall d | d in s.devices :: d in s'.devices)
    && (forall d | d in s.devices && d in s.record.paired :: d in s'.record.paired && s'.record.paired[d] == s.record.paired[d])
  }

  lemma SessionKeepsGrants(s: State, e: Event)
    requires Enabled(s, e) && BySession(e)
    ensures GrantsKept(s, Step(s, e))
  {}

  lemma ConsumeKeepsGrants(s: State, code: string, row: Id, now: int)
    requires Numbered(s)
    ensures GrantsKept(s, ConsumeOn(s, code, row, now).state)
  {}

  lemma ClaimKeepsGrants(s: State, e: Event)
    requires Enabled(s, e) && ByClaim(e) && Numbered(s)
    ensures GrantsKept(s, Step(s, e))
  {
    match e {
      case Mint(_, _, _, _, _) =>
      case ClaimBegins(call, code, given, now) =>
        if code in s.codes {
          ConsumeKeepsGrants(s, code, s.codes[code].id, now);
        }
      case ClaimEnds(call) =>
        var pending := s.calls[call];
        ConsumeKeepsGrants(s.(calls := s.calls - {call}), pending.code, pending.row, pending.at);
    }
    hide FirstFree, Unspent, ConsumeOn;
  }

  lemma OperatorKeepsGrants(s: State, e: Event)
    requires Enabled(s, e) && ByOperator(e) && !e.ApproveEnds?
    ensures GrantsKept(s, Step(s, e))
  {}

  lemma KeptJustified(s: State, s': State)
    requires Justified(s) && GrantsKept(s, s')
    ensures Justified(s')
  {
    hide LastMode;
  }

  lemma StepJustified(s: State, e: Event)
    requires Enabled(s, e) && OneDevice(s) && Justified(s)
    ensures Justified(Step(s, e))
  {
    assert Numbered(s) by { hide Rows, Spends, Owners; }
    hide Justified, OneDevice, GrantsKept;
    if ByClaim(e) {
      hide Step;
      ClaimKeepsGrants(s, e);
      KeptJustified(s, Step(s, e));
    } else if BySession(e) {
      hide Step;
      SessionKeepsGrants(s, e);
      KeptJustified(s, Step(s, e));
    } else if e.ApproveEnds? {
      ApproveKeepsJustified(s, e.call, e.now);
    } else if ByOperator(e) {
      hide Step;
      OperatorKeepsGrants(s, e);
      KeptJustified(s, Step(s, e));
    } else {
      hide Step;
      HousekeepingKeepsJustified(s, e);
    }
  }

  lemma {:induction false} EveryRunIsJustified(s: State, events: seq<Event>)
    requires OneDevice(s) && Justified(s)
    ensures Justified(Run(s, events))
    decreases |events|
  {
    hide Step, Enabled, OneDevice, Justified;
    if events != [] && Enabled(s, events[0]) {
      StepOneDevice(s, events[0]);
      StepJustified(s, events[0]);
      EveryRunIsJustified(Step(s, events[0]), events[1..]);
    }
  }

  /** In every reachable state a device reaches only folders that exist, and what the operator did
      not set for it himself is what its code was minted with. */
  lemma NoGrantBeyondTheCode(events: seq<Event>, key: (Id, Id))
    requires key in Run(EMPTY, events).grants
    ensures var s := Run(EMPTY, events);
      && key.0 in s.devices && key.1 in s.folders
      && (key !in s.record.chosen ==>
            key.0 in s.record.paired && LastMode(s.record.paired[key.0].permissions, key.1) == Some(s.grants[key]))
  {
    hide Run;
    EveryRunIsJustified(EMPTY, events);
  }
}
