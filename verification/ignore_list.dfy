/** The `cio_ignore` bookkeeping helpers of the functional-verification suite.

    Running `cio_ignore` is an oracle: `rcs[k]` is the return code of the k-th
    command the helper issues, and a non-zero code is a failure. Devices are
    strings, so the Python helper's `str(device)` leaves them unchanged. */
module IgnoreList {
  import opened SeqUtil

  type Device = string

  /** A command line as an argument vector. */
  type Command = seq<string>

  function CioIgnore(flag: string, device: Device): Command
  {
    ["cio_ignore", flag, device]
  }

  /** The command lines issued for `devices`, one per device, in order. */
  function CioIgnoreEach(flag: string, devices: seq<Device>): (cmds: seq<Command>)
    ensures |cmds| == |devices|
    ensures forall k :: 0 <= k < |devices| ==> cmds[k] == CioIgnore(flag, devices[k])
  {
    if devices == [] then []
    else CioIgnoreEach(flag, devices[..|devices| - 1]) + [CioIgnore(flag, devices[|devices| - 1])]
  }

  /** A Python list the caller owns; the helper mutates it and hands the very
      same object back. */
  class DeviceList {
    var items: seq<Device>

    constructor (items: seq<Device>)
      ensures this.items == items
    {
      this.items := items;
    }
  }

  /** What `addto_ignore_list` leaves behind, as the Python helper runs it: the list
      after the loop, the devices a `cio_ignore -a` was issued for, and those
      whose command failed (each in order). */
  datatype AddRun = AddRun(kept: seq<Device>, issued: seq<Device>, failed: seq<Device>)

  /** The `for device in ignored_devices` loop, resumed with the list in state
      `items` and Python's list iterator at position `i`: the iterator yields
      `items[i]` while `i < len(items)`. A failing device is removed with
      `list.remove` (its first occurrence) from the list being iterated, so the
      element after it moves under the iterator's cursor and is never visited.
      The iterator has moved `i` times, so `i` commands were issued so far and
      the next one gets `rcs[i]`. */
  function AddLoop(items: seq<Device>, i: nat, rcs: seq<int>): AddRun
    requires |items| <= |rcs|
    decreases |items| + |items| - i
  {
    if i >= |items| then AddRun(items, [], [])
    else
      var device := items[i];
      if rcs[i] != 0 then
        var rest := AddLoop(RemoveFirst(items, device), i + 1, rcs);
        AddRun(rest.kept, [device] + rest.issued, [device] + rest.failed)
      else
        var rest := AddLoop(items, i + 1, rcs);
        AddRun(rest.kept, [device] + rest.issued, rest.failed)
  }

  /** Issuing one more command appends its command line. */
  lemma CioIgnoreEachSnoc(flag: string, devices: seq<Device>, device: Device)
    ensures CioIgnoreEach(flag, devices + [device]) == CioIgnoreEach(flag, devices) + [CioIgnore(flag, device)]
  {
    assert (devices + [device])[..|devices|] == devices;
  }

  /** One turn of the loop: the visited device is issued, and removed when
      its code is non-zero, before the loop resumes at the next position. */
  lemma AddLoopStep(items: seq<Device>, i: nat, rcs: seq<int>, issued: seq<Device>)
    requires |items| <= |rcs| && i < |items|
    ensures var device := items[i];
            var next := if rcs[i] != 0 then RemoveFirst(items, device) else items;
            |next| <= |rcs| &&
            AddLoop(items, i, rcs).kept == AddLoop(next, i + 1, rcs).kept &&
            issued + AddLoop(items, i, rcs).issued == (issued + [device]) + AddLoop(next, i + 1, rcs).issued
  {
    var device := items[i];
    var next := if rcs[i] != 0 then RemoveFirst(items, device) else items;
    assert issued + ([device] + AddLoop(next, i + 1, rcs).issued) == (issued + [device]) + AddLoop(next, i + 1, rcs).issued;
  }

  /** `addto_ignore_list`: issue `cio_ignore -a` for each device the iterator
      visits and remove failed ones from the caller's list in place; return
      that same list. */
  method AddToIgnoreList(devices: DeviceList, rcs: seq<int>)
    returns (added: DeviceList, commands: seq<Command>)
    requires |devices.items| <= |rcs|
    modifies devices
    ensures added == devices
    ensures devices.items == AddLoop(old(devices.items), 0, rcs).kept
    ensures commands == CioIgnoreEach("-a", AddLoop(old(devices.items), 0, rcs).issued)
  {
    ghost var whole := AddLoop(devices.items, 0, rcs);
    ghost var issued: seq<Device> := [];
    added := devices;
    commands := [];
    var items := added.items;
    var i := 0;
    while i < |items|
      invariant added == devices && added.items == items
      invariant |items| <= |rcs|
      invariant commands == CioIgnoreEach("-a", issued)
      invariant whole.kept == AddLoop(items, i, rcs).kept
      invariant whole.issued == issued + AddLoop(items, i, rcs).issued
      decreases |items| + |items| - i
    {
      var device := items[i];
      AddLoopStep(items, i, rcs, issued);
      CioIgnoreEachSnoc("-a", issued, device);
      commands := commands + [CioIgnore("-a", device)];
      issued := issued + [device];
      if rcs[i] != 0 {
        items := RemoveFirst(items, device);
        added.items := items;
      }
      i := i + 1;
    }
  }

  /** The devices that were visited but not removed are never lost, and no
      device appears that was not in the list: what is kept plus what failed
      is the original list, as a multiset. */
  lemma {:induction false} AddLoopPartition(items: seq<Device>, i: nat, rcs: seq<int>)
    requires |items| <= |rcs|
    ensures var run := AddLoop(items, i, rcs);
            multiset(run.kept) + multiset(run.failed) == multiset(items) &&
            |run.kept| + |run.failed| == |items|
    decreases |items| + |items| - i
  {
    if i < |items| {
      var device := items[i];
      if rcs[i] != 0 {
        AddLoopPartition(RemoveFirst(items, device), i + 1, rcs);
      } else {
        AddLoopPartition(items, i + 1, rcs);
      }
    }
  }

  /** The helper only ever removes: the list it returns is a subsequence of
      the list it was given. */
  lemma {:induction false} AddLoopKeepsSubsequence(items: seq<Device>, i: nat, rcs: seq<int>)
    requires |items| <= |rcs|
    ensures IsSubsequence(AddLoop(items, i, rcs).kept, items)
    decreases |items| + |items| - i
  {
    if i >= |items| {
      SubsequenceReflexive(items);
    } else {
      var device := items[i];
      if rcs[i] != 0 {
        var smaller := RemoveFirst(items, device);
        AddLoopKeepsSubsequence(smaller, i + 1, rcs);
        RemoveFirstIsSubsequence(items, device);
        SubsequenceTransitive(AddLoop(smaller, i + 1, rcs).kept, smaller, items);
      } else {
        AddLoopKeepsSubsequence(items, i + 1, rcs);
      }
    }
  }

  /** The devices the loop removes are exactly the visited devices whose
      command returned non-zero: the k-th visited device got `rcs[i + k]`. */
  lemma {:induction false} AddLoopFailedByCode(items: seq<Device>, i: nat, rcs: seq<int>)
    requires |items| <= |rcs| && i <= |rcs|
    ensures var run := AddLoop(items, i, rcs);
            |run.issued| <= |rcs[i..]| && run.failed == Failed(run.issued, rcs[i..])
    decreases |items| + |items| - i
  {
    if i < |items| {
      var device := items[i];
      var next := if rcs[i] != 0 then RemoveFirst(items, device) else items;
      AddLoopFailedByCode(next, i + 1, rcs);
      var rest := AddLoop(next, i + 1, rcs);
      var issued := [device] + rest.issued;
      assert issued[1..] == rest.issued;
      assert rcs[i..][0] == rcs[i] && rcs[i..][1..] == rcs[i + 1..];
    }
  }

  /** Every device whose command failed is taken out: for a list without
      duplicates, a device is in the returned list exactly when it was in the
      input and is not among the visited devices whose return code was
      non-zero. */
  lemma AddToIgnoreListRemovesFailed(devices: seq<Device>, rcs: seq<int>, x: Device)
    requires |devices| <= |rcs| && Distinct(devices)
    ensures var run := AddLoop(devices, 0, rcs);
            |run.issued| <= |rcs| &&
            (x in run.kept <==> x in devices && x !in Failed(run.issued, rcs))
  {
    var run := AddLoop(devices, 0, rcs);
    AddLoopFailedByCode(devices, 0, rcs);
    assert rcs[0..] == rcs;
    AddLoopPartition(devices, 0, rcs);
    DistinctMultiplicity(devices, x);
    assert multiset(run.kept)[x] + multiset(run.failed)[x] == multiset(devices)[x];
  }

  /** When every command succeeds the list comes back unchanged and every
      device got its command, in order. */
  lemma {:induction false} AddLoopAllSucceed(items: seq<Device>, i: nat, rcs: seq<int>)
    requires |items| <= |rcs| && i <= |items|
    requires forall k :: i <= k < |items| ==> rcs[k] == 0
    ensures AddLoop(items, i, rcs) == AddRun(items, items[i..], [])
    decreases |items| - i
  {
    if i < |items| {
      AddLoopAllSucceed(items, i + 1, rcs);
      assert items[i..] == [items[i]] + items[i + 1..];
    }
  }

  /** As written, a failure hides the next device: with two distinct devices
      whose commands would both fail, only the first is tried, and the second
      is handed back as if it had been added. */
  lemma AddToIgnoreListSkipsSuccessor(a: Device, b: Device)
    requires a != b
    ensures AddLoop([a, b], 0, [1, 1]) == AddRun([b], [a], [a])
  {
    assert RemoveFirst([a, b], a) == [b];
    assert AddLoop([b], 1, [1, 1]) == AddRun([b], [], []);
  }

  /** The devices whose command succeeded, in order: what the helper is meant
      to hand back when every device gets its own command. */
  function Succeeded(devices: seq<Device>, rcs: seq<int>): (r: seq<Device>)
    requires |devices| <= |rcs|
    ensures IsSubsequence(r, devices)
  {
    if devices == [] then []
    else if rcs[0] != 0 then Succeeded(devices[1..], rcs[1..])
    else [devices[0]] + Succeeded(devices[1..], rcs[1..])
  }

  /** The corrected helper: it iterates over a snapshot of the list, so every
      device gets exactly one `cio_ignore -a`, and then leaves in the caller's
      list exactly the devices whose command succeeded. */
  method AddToIgnoreListCorrected(devices: DeviceList, rcs: seq<int>)
    returns (added: DeviceList, commands: seq<Command>)
    requires |devices.items| <= |rcs|
    modifies devices
    ensures added == devices
    ensures devices.items == Succeeded(old(devices.items), rcs)
    ensures commands == seq(|old(devices.items)|, k requires 0 <= k < |old(devices.items)| => CioIgnore("-a", old(devices.items)[k]))
  {
    var snapshot := devices.items;
    var kept: seq<Device> := [];
    commands := [];
    var i := 0;
    while i < |snapshot|
      invariant i <= |snapshot|
      invariant kept + Succeeded(snapshot[i..], rcs[i..]) == Succeeded(snapshot, rcs)
      invariant |commands| == i
      invariant forall k :: 0 <= k < i ==> commands[k] == CioIgnore("-a", snapshot[k])
    {
      assert snapshot[i..][1..] == snapshot[i + 1..] && rcs[i..][1..] == rcs[i + 1..];
      commands := commands + [CioIgnore("-a", snapshot[i])];
      if rcs[i] == 0 {
        kept := kept + [snapshot[i]];
      }
      i := i + 1;
    }
    devices.items := kept;
    added := devices;
  }

  /** The intended property: a device (in a list without duplicates) is
      handed back as added exactly when its own command succeeded. */
  lemma {:induction false} SucceededExactly(devices: seq<Device>, rcs: seq<int>, k: nat)
    requires |devices| <= |rcs| && Distinct(devices) && k < |devices|
    ensures devices[k] in Succeeded(devices, rcs) <==> rcs[k] == 0
  {
    SucceededOnlyFrom(devices[1..], rcs[1..], devices[0]);
    if k > 0 {
      assert Distinct(devices[1..]) by {
        forall p, q | 0 <= p < q < |devices[1..]| ensures devices[1..][p] != devices[1..][q] {
          assert devices[1..][p] == devices[p + 1] && devices[1..][q] == devices[q + 1];
        }
      }
      assert devices[1..][k - 1] == devices[k] && rcs[1..][k - 1] == rcs[k];
      SucceededExactly(devices[1..], rcs[1..], k - 1);
      assert devices[0] != devices[k];
    } else {
      assert devices[0] !in devices[1..] by {
        forall p | 0 <= p < |devices[1..]| ensures devices[1..][p] != devices[0] {
          assert devices[1..][p] == devices[p + 1];
        }
      }
    }
  }

  /** Everything `Succeeded` returns comes from its input. */
  lemma {:induction false} SucceededOnlyFrom(devices: seq<Device>, rcs: seq<int>, x: Device)
    requires |devices| <= |rcs|
    ensures x in Succeeded(devices, rcs) ==> x in devices
  {
    if devices != [] {
      SucceededOnlyFrom(devices[1..], rcs[1..], x);
    }
  }

  /** `remove_from_ignore_list`: issue `cio_ignore -r` for every device, in
      order and without stopping early, collect those that failed, and raise
      afterwards when any did. */
  method RemoveFromIgnoreList(removeDevices: seq<Device>, rcs: seq<int>)
    returns (raised: bool, commands: seq<Command>, failedDevices: seq<Device>)
    requires |removeDevices| <= |rcs|
    ensures |commands| == |removeDevices|
    ensures forall k :: 0 <= k < |removeDevices| ==> commands[k] == CioIgnore("-r", removeDevices[k])
    ensures failedDevices == Failed(removeDevices, rcs)
    ensures raised <==> exists k :: 0 <= k < |removeDevices| && rcs[k] != 0
  {
    failedDevices := [];
    commands := [];
    var i := 0;
    while i < |removeDevices|
      invariant i <= |removeDevices|
      invariant failedDevices + Failed(removeDevices[i..], rcs[i..]) == Failed(removeDevices, rcs)
      invariant |commands| == i
      invariant forall k :: 0 <= k < i ==> commands[k] == CioIgnore("-r", removeDevices[k])
      invariant failedDevices == [] <==> forall k :: 0 <= k < i ==> rcs[k] == 0
    {
      assert removeDevices[i..][1..] == removeDevices[i + 1..] && rcs[i..][1..] == rcs[i + 1..];
      var device := removeDevices[i];
      commands := commands + [CioIgnore("-r", device)];
      if rcs[i] != 0 {
        failedDevices := failedDevices + [device];
      }
      i := i + 1;
    }
    raised := failedDevices != [];
  }

  /** The devices whose `cio_ignore -r` failed, in order. */
  function Failed(devices: seq<Device>, rcs: seq<int>): (r: seq<Device>)
    requires |devices| <= |rcs|
    ensures IsSubsequence(r, devices)
  {
    if devices == [] then []
    else if rcs[0] != 0 then [devices[0]] + Failed(devices[1..], rcs[1..])
    else Failed(devices[1..], rcs[1..])
  }

  /** Every device is either removed from the ignore list or reported as
      failed, never both: the failed and the succeeded devices together are
      the input. */
  lemma {:induction false} RemovePartition(devices: seq<Device>, rcs: seq<int>)
    requires |devices| <= |rcs|
    ensures multiset(Failed(devices, rcs)) + multiset(Succeeded(devices, rcs)) == multiset(devices)
  {
    if devices != [] {
      RemovePartition(devices[1..], rcs[1..]);
      assert devices == [devices[0]] + devices[1..];
    }
  }
}
