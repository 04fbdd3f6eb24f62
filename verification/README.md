# gingers390x test utilities: a Dafny model

This project models the self-contained logic of the functional-verification
suite's helper module (`tests/fvt/utils.py`) of the Ginger s390x plugin. This
plugin manages Fibre-Channel LUNs, CCW network devices and DASD/zFCP storage
devices through REST calls. The model covers three parts:

- **The task-completion poller** (`wait_task_status_change`). The suite calls it
  after every asynchronous REST action. It fetches the task record, sleeps and
  retries while the status is the in-progress value ("running" by default),
  and returns the record once the status is the caller's final value
  ("finished" by default, "failed" for negative tests). Any other status
  raises "unexpected". After eleven fetches it raises a timeout. Module
  `TaskPoller` (task_poller.dfy).
- **The `cio_ignore` bookkeeping loops** (`addto_ignore_list`,
  `remove_from_ignore_list`), in module `IgnoreList` (ignore_list.dfy).
  `addto_ignore_list` mutates the caller's list in place and returns the same
  object, so it is modelled as a `DeviceList` class whose `items` the method
  reassigns. Python's list iterator is an index into the list being mutated,
  and `list.remove` deletes the first equal element (module `SeqUtil`,
  seq_util.dfy).
- **The ifcfg derivation of `configure_nwdevice`**: the blank-triplet early
  return, the device id cut at the first comma, and the path and content built
  by `str.replace` on the two fixed templates. Module `NetworkDeviceConfig`
  (nw_device_config.dfy).

Environment actions are oracle inputs:

- The poller's REST fetch is a script of task records. A fetch past the end of
  the script stands for a fetch that raises, which propagates (`FetchFailed`).
- The return codes of `cio_ignore` are a sequence indexed by command number.
- The return code of `znetconf` and the success of the file write are
  parameters.
- Sleeps are counted, not timed.

The counter is compared with the bound before it is incremented
(`counter > 10`), and a sleep follows every in-progress reply, so a timeout
comes after exactly eleven fetches and eleven sleeps.

## Model

| member | source | states |
|---|---|---|
| `TaskPoller.WaitTaskStatusChange` | tests/fvt/utils.py:63-97 | The `while True` loop (counter tested before it is incremented, in-progress tested before final) produces exactly the outcome, the fetch count and the (ghost) sleep count of the loop-free `Poll` description for every script and every pair of statuses |
| `TaskPoller.PollTimeoutIff` | tests/fvt/utils.py:76-82 | A timeout happens if and only if the first eleven replies are all in-progress; it then comes after exactly eleven fetches and eleven sleeps |
| `TaskPoller.PollSuccessShape` | tests/fvt/utils.py:84-97 | On a normal return the record is the last one fetched, its status is the caller's final status (which differs from the in-progress one), at most eleven fetches were made, and every earlier reply was in-progress |
| `TaskPoller.PollUnexpectedShape` | tests/fvt/utils.py:90-93 | A status that is neither in-progress nor final raises "unexpected" on that same fetch, reporting that record; no further fetch and no sleep follow it |
| `TaskPoller.PollSleepsCountInProgress` | tests/fvt/utils.py:87-89 | The number of sleeps equals the number of in-progress replies among the records fetched, on every outcome |
| `TaskPoller.PollSameStatusNeverSucceeds` | tests/fvt/utils.py:87-91 | If the caller passes the same value for the current and the final status, the in-progress branch always wins and the poll never returns normally |
| `TaskPoller.PollFinishesAfterInProgress` | tests/fvt/utils.py:84-91 | `n` in-progress replies (n at most ten) followed by one with the caller-chosen final status (for example "failed") return that record after `n + 1` fetches and `n` sleeps |
| `TaskPoller.PollThreeRunningThenFinished` | tests/fvt/utils.py:63-64 | With the default statuses, three "running" replies and then "finished" return the finished record on the fourth fetch after three sleeps |
| `IgnoreList.AddToIgnoreList` | tests/fvt/utils.py:100-112 | Returns the very object it was given, whose list is what Python's iterate-while-removing loop leaves; the commands issued are `cio_ignore -a` for the visited devices, in order |
| `IgnoreList.AddLoopKeepsSubsequence` | tests/fvt/utils.py:102-112 | The returned list is a subsequence of the input list: the helper only removes |
| `IgnoreList.AddLoopPartition` | tests/fvt/utils.py:103-110 | The kept devices and the failed devices together are the input, as a multiset; nothing is lost or invented |
| `IgnoreList.AddToIgnoreListRemovesFailed` | tests/fvt/utils.py:107-110 | For a list without duplicates, a device is in the returned list exactly when it was in the input and is not among the visited devices whose `cio_ignore -a` return code was non-zero |
| `IgnoreList.AddLoopFailedByCode` | tests/fvt/utils.py:103-110 | The devices the loop removes are exactly the visited devices whose command returned non-zero, in visiting order; the k-th visited device got the k-th return code |
| `IgnoreList.AddLoopAllSucceed` | tests/fvt/utils.py:103-112 | When every command succeeds, the list comes back unchanged and every device got its command, in order |
| `IgnoreList.AddToIgnoreListSkipsSuccessor` | tests/fvt/utils.py:103-110 | As written, after a failed device the next one is never visited: two distinct devices whose commands both fail yield one command and return the second device as if it had been added |
| `IgnoreList.AddToIgnoreListCorrected` | tests/fvt/utils.py:100-112 | The corrected helper issues `cio_ignore -a` for every device of the input in order, and leaves in the same list exactly the devices whose command succeeded |
| `IgnoreList.SucceededExactly` | tests/fvt/utils.py:100-112 | Under the corrected helper, a device of a duplicate-free list is reported as added if and only if its own command succeeded |
| `IgnoreList.RemoveFromIgnoreList` | tests/fvt/utils.py:115-129 | One `cio_ignore -r` per device, in input order and with no early exit; the failed devices are collected in order; it raises if and only if at least one command failed |
| `IgnoreList.RemovePartition` | tests/fvt/utils.py:117-125 | Every device is either removed or collected as failed, never both |
| `SeqUtil.RemoveFirstAt` | tests/fvt/utils.py:110 | `list.remove(x)` deletes exactly the first occurrence of `x` |
| `NetworkDeviceConfig.DeviceId` | tests/fvt/utils.py:145 | The device id is the prefix of the triplet before its first comma (the whole triplet when it has none) and contains no comma |
| `NetworkDeviceConfig.IfcfgPathFor` | tests/fvt/utils.py:154 | Substituting into the path template of line 28 gives `/etc/sysconfig/network-scripts/ifcfg-enccw` followed by the device id, for every device id |
| `NetworkDeviceConfig.IfcfgContentFor` | tests/fvt/utils.py:155-156 | The two substitutions into the content template of lines 29-33 give `DEVICE=enccw<device>` and `SUBCHANNELS=<triplet>` with the fixed lines between them, when the device id holds no `<` |
| `NetworkDeviceConfig.ConfigureNwDevice` | tests/fvt/utils.py:141-170 | A blank or whitespace triplet returns before any command runs; otherwise exactly `znetconf -a <device id>` runs; if it fails, 1 is returned and no file is written; otherwise a write is attempted to `/etc/sysconfig/network-scripts/ifcfg-enccw<device id>`, with the filled-in template as content when the device id holds no `<`; a failed command or a failed write returns exactly 1; 0 is returned if and only if the command and the write both succeed |

## Left out

- `run_command`, `subprocess`, `os.system`, file writes and `os.path.exists`: I/O, replaced by oracle inputs (return codes, write success).
- Logging, the wall-clock length of `time.sleep(2)`, and the text of the exception messages: no behaviour depends on them.
- The request path `task_uri + '/' + task_id` of the poller: plain concatenation with no effect on the control flow. The default `task_uri` ends in `/`, so the path has a double slash.
- `TaskPoller.WaitTaskStatusChange`: an exception from the fetch is modelled only as the script running out (`FetchFailed`), not by what it carries.
- `IgnoreList.AddToIgnoreList`: devices are strings, so `str(device)` is the identity. With non-string elements, `remove(str(device))` would raise `ValueError`; that path is not modelled.
- `NetworkDeviceConfig.ConfigureNwDevice`: a `None` triplet is not modelled, because strings cannot be `None`; it takes the same early return as the empty string. A failed write is modelled as an attempted write returning 1, without any partial file content.
- `unconfigure_nwdevice`: apart from the device id, its logic is filesystem existence checks and command outcomes, which are all oracles here.
- `bring_eckd_online`, `bring_eckd_offline`, `bring_zfcp_online`, `bring_zfcp_offline`: shell command sequences whose only logic is to stop at the first non-zero return code.
- `readconfig`: a thin wrapper around `ConfigParser` file reading.
- control/fc_luns.py and the REST test scripts: mappings onto a web framework, and request/assert sequences against a live server. They are used only to see what the callers of the helpers expect.

## Findings

| source | as written | input that shows it | evidently intended | confidence | as-written member | corrected member |
|---|---|---|---|---|---|---|
| tests/fvt/utils.py:102-110 | `added_devices` aliases `ignored_devices` and failed devices are removed from the list being iterated. The element after a removed one moves under the iterator's cursor, so it is never tried but is still returned as added | devices `[a, b]` with both `cio_ignore -a` commands failing: one command runs and `[b]` is returned | every device gets its own command, and exactly the devices whose command succeeded are returned | high; not executed | `IgnoreList.AddToIgnoreListSkipsSuccessor` | `IgnoreList.SucceededExactly` |
