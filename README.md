# GCE backend instance lifecycle, and process helpers, in Dafny

This project models two parts of the Swarming/LUCI Python code base.

**The Instance lifecycle of the GCE backend** (`appengine/gce-backend/instances.py`).
The datastore is the `Instances.Datastore` class. Its fields are:
- one map per entity kind: InstanceTemplate, InstanceTemplateRevision, InstanceGroupManager and Instance;
- the log of entity writes (`puts`);
- the machine events sent (`events`);
- the Compute API delete requests sent (`deleteCalls`).

Each transactional function of the source is one atomic method on that class. Each method's new state is tied to a pure function on the instance map: `Marked`, `WithSubscription`, `WithLease`, `DeletionTimeSet`, `WithEntity` and `EnsureAll`. The guard, idempotence and first-write-wins rules are proved as lemmas about those functions.

Every write keeps the store "evolving" (`Evolves`): records are never removed, and a record's identity, a set deletion time, the pending-deletion mark and a recorded subscription are never undone.

Inputs and outputs are modelled as follows:
- the Compute API's listing pages and delete replies are inputs;
- the tasks the schedulers enqueue are returned sequences;
- the time taken before a delete request is an integer parameter.

Instance keys are the space-joined string `"base revision zone name"`. Parsing one back goes through the Python `str.split()` semantics modelled in `Text`.

**Small process helpers** (`utils/tools.py`):
- `fix_python_path`;
- the `ProfileCounter` context manager, for one thread, with integer clock readings. A run of calls is a tree of `Span`s replayed as enter/exit steps;
- `Unbuffered.write`, over a stream modelled as the log of writes and flushes;
- `get_bool_env_var` and `is_headless`, over an environment map. Python's `int()` is modelled by `Text.ParseInt`.

Files:
- `wrappers.dfy`: Option and Result;
- `text.dfy`: whitespace splitting, joining, `endswith`, `int()`/`str()` in base 10;
- `models.dfy`: entity keys and records;
- `instances.dfy`: the lifecycle;
- `tools.dfy`: the helpers.

## Model

| member | source | states |
|---|---|---|
| Text.Split | appengine/gce-backend/instances.py:49 | `str.split()`: every field is non-empty and free of whitespace. |
| Text.SplitJoin | appengine/gce-backend/instances.py:35-49 | Splitting a space-joined list on whitespace gives the list back, when every part is non-empty and holds no whitespace. |
| Text.AfterLastIsLastSegment | appengine/gce-backend/instances.py:243-244 | The instance name taken from a URL is a suffix of it. It holds no `/`, and it is preceded by `/` whenever it is shorter than the URL. |
| Text.ParseInt | utils/tools.py:273 | Python 2's `int()` in base 10: a blank string is an error; a string of digits, after stripping, reads as their decimal value; a negative result comes from a leading `-`; and an accepted string holds only digits, signs and whitespace. |
| Text.ParseIntLiteral | utils/tools.py:273 | `int(s)` is `v` exactly when the stripped `s` is an optional sign, then whitespace only after a sign, then one or more digits whose value, negated after `-`, is `v`; every other string (a bare sign, `"1 2"`, a word) is a ValueError. |
| Text.ParseIntSpacedSign | utils/tools.py:273 | Whitespace after the sign is skipped: `int(" - 1 ") == -1`. |
| Text.ParseIntRejectsWord | utils/tools.py:273 | `int("true")` raises, so such a variable makes get_bool_env_var raise. |
| Text.ParseIntOfString | utils/tools.py:268-273 | `int(str(n)) == n` for every integer `n`, negative ones included. |
| Instances.GetInstanceKey | appengine/gce-backend/instances.py:23-36 | The key's id is the four parts with one space between each pair. |
| Instances.GetInstanceGroupManagerKey | appengine/gce-backend/instances.py:39-49 | A manager key comes back exactly when the id splits into four fields, and it is built from the first three (the last field is dropped). |
| Instances.KeyRoundTrip | appengine/gce-backend/instances.py:23-49 | get_instance_group_manager_key(get_instance_key(b, r, z, n)) is the manager key (b, r, z) when no part is empty or holds whitespace. |
| Instances.EmptyPartBreaksRoundTrip | appengine/gce-backend/instances.py:35-49 | With an empty base name, the id splits into three fields and no manager key is recovered. |
| Instances.SpacedPartBreaksRoundTrip | appengine/gce-backend/instances.py:35-49 | With a space inside the base name, the id splits into five fields and no manager key is recovered. |
| Instances.FullSubscriptionName | appengine/gce-backend/instances.py:102-103 | The subscription's full name is never empty, so a recorded subscription reads as set. |
| Instances.ListedAfterFlattens | appengine/gce-backend/instances.py:168-175 | Following tokens from page i yields the items of pages i+1..k in order, where k is the first page without a token. |
| Instances.ListingIsConcatenation | appengine/gce-backend/instances.py:167-177 | When every later page has `items`, the listing is the in-order concatenation of the pages' items up to the first page without a token; a missing `items` on the first page reads as none. |
| Instances.ListedAfterFails | appengine/gce-backend/instances.py:168-175 | Following tokens from before page j fails at page j, the first later page without `items`. |
| Instances.ListingFailsAtMissingItems | appengine/gce-backend/instances.py:175 | A later page without `items` makes the whole listing fail, naming the first such page. |
| Instances.React | appengine/gce-backend/instances.py:302-316 | DONE records DELETION_SCHEDULED; another status is left alone (no record, no raise); error 400 records DELETION_SUCCEEDED; any other error is raised with its own status code. A record happens exactly for DONE and 400. |
| Instances.Marked | appengine/gce-backend/instances.py:53-69 | Marking keeps the key set and every other record, keeps the store evolving, and leaves an existing record pending deletion. |
| Instances.MarkedIdempotent | appengine/gce-backend/instances.py:64-69 | Marking twice is marking once. |
| Instances.WithSubscription | appengine/gce-backend/instances.py:73-104 | Keeps the key set, every other record and the store's evolution, and leaves an existing record with a subscription set. |
| Instances.SubscriptionFirstWriteWins | appengine/gce-backend/instances.py:90-91 | A second subscription leaves the record as the first one left it. |
| Instances.WithLease | appengine/gce-backend/instances.py:108-130 | Only the lease of the named record changes, to the new value; a missing record means no change. |
| Instances.LeaseLastWriteWins | appengine/gce-backend/instances.py:121-130 | Of two lease writes the second one is kept; a lease write keeps the store evolving. |
| Instances.DeletionTimeSet | appengine/gce-backend/instances.py:265-280 | An existing record without a deletion time gets exactly `ts` and nothing else changes in it; a record with a time, or a missing one, is left as it was. Keeps the key set, every other record and the store's evolution. |
| Instances.DeletionTimeFirstWriteWins | appengine/gce-backend/instances.py:276-280 | A later deletion time never replaces an earlier one. |
| Instances.WithEntity | appengine/gce-backend/instances.py:181-204 | Afterwards the key exists, and no existing record is changed or removed. |
| Instances.EnsureAllKeeps | appengine/gce-backend/instances.py:242-252 | After discovery, the keys are the old keys plus the derived keys, and existing records are untouched. |
| Instances.EnsureAllCreates | appengine/gce-backend/instances.py:193-204 | The store grows by exactly one record per URL whose entity was created. |
| Instances.EnsureAllNewRecords | appengine/gce-backend/instances.py:199-203 | Every record discovery adds is a fresh Instance, under the key of a URL it created, for that URL and manager. |
| Instances.EnsureAllIdempotent | appengine/gce-backend/instances.py:193-196 | When every derived key exists, discovery changes nothing and creates nothing. |
| Instances.DiscoveryTwice | appengine/gce-backend/instances.py:226-254 | A second discovery over the same URLs changes nothing and creates nothing. |
| Instances.Datastore.MarkForDeletion | appengine/gce-backend/instances.py:53-69 | A record not yet pending is marked, its lease is cleared, it is written once and one DELETION_PROPOSED event is sent. A missing or already pending record brings no write and no event. |
| Instances.Datastore.AddSubscriptionMetadata | appengine/gce-backend/instances.py:73-104 | A record without a subscription gets one metadata update appended, plus the service account and the full subscription name, and is written once; otherwise nothing changes. |
| Instances.Datastore.AddLeaseExpirationTs | appengine/gce-backend/instances.py:108-130 | The record is written exactly when it exists and its lease differs from the new one. |
| Instances.Datastore.SetDeletionTime | appengine/gce-backend/instances.py:265-280 | The record is written exactly when it exists and has no deletion time yet. |
| Instances.Datastore.CreateIfAbsent | appengine/gce-backend/instances.py:181-204 | The result says whether the key was absent. A new record is written only then, and the key exists afterwards. |
| Instances.Datastore.EnsureEntityExists | appengine/gce-backend/instances.py:208-223 | A CREATED event with the instance name is sent exactly when a new record was written. |
| Instances.Datastore.Fetch | appengine/gce-backend/instances.py:133-177 | No URLs when the manager or its revision is missing, or the URL or project is empty. Otherwise the result is the listing across pages. |
| Instances.Datastore.SetInstances | appengine/gce-backend/instances.py:235 | An existing manager's instance set is replaced; a missing manager means no change. |
| Instances.Datastore.EnsureEach | appengine/gce-backend/instances.py:242-252 | The batch leaves the store as the discovery fold does. Writes and CREATED events follow, in order, the URLs whose entities were created. |
| Instances.Datastore.EnsureEntitiesExist | appengine/gce-backend/instances.py:226-254 | A failed listing raises before anything is written. Otherwise entities exist for every URL, and the manager's instances become exactly the derived keys, or the empty set when nothing was listed. |
| Instances.Datastore.Delete | appengine/gce-backend/instances.py:283-316 | With a deletion time already set, nothing happens. Otherwise one request is sent, then: DONE sets the time and sends DELETION_SCHEDULED; another status changes nothing; error 400 sets the time and sends DELETION_SUCCEEDED; any other error is raised and changes nothing. |
| Instances.Datastore.DeletePending | appengine/gce-backend/instances.py:319-363 | `_delete` runs exactly when the record exists, has no deletion time, is pending deletion, has a URL, and its manager and a revision with a project exist. Otherwise nothing happens. |
| Instances.Datastore.DeleteDrained | appengine/gce-backend/instances.py:373-431 | `_delete` runs exactly when the record is undeleted, not cataloged, has a URL, manager, revision with project and template, and its manager or revision is listed as drained. Otherwise nothing happens. |
| Instances.Datastore.ScheduleFetch | appengine/gce-backend/instances.py:257-261 | One task, without repeats, for exactly the managers with a URL. |
| Instances.Datastore.SchedulePendingDeletion | appengine/gce-backend/instances.py:366-370 | One task, without repeats, for exactly the records pending deletion with no deletion time. It covers every record delete_pending would act on. |
| Instances.Datastore.ScheduleDrainedDeletion | appengine/gce-backend/instances.py:434-443 | A task for exactly the instances listed by an existing drained manager that exist, are not cataloged and have no deletion time. Which instances get a task is stated, not how many tasks each gets. |
| Tools.FixPythonPath | utils/tools.py:220-227 | A leading "python" is replaced by the interpreter, with the rest unchanged. Failing that, a leading ".py" script gets the interpreter put in front. Otherwise the command is unchanged. |
| Tools.ReplayAppend | utils/tools.py:165-177 | Replaying two runs of enter/exit steps in turn is replaying their concatenation. |
| Tools.NestedCallInvisible | utils/tools.py:165-177 | A call made while another is open, with everything it calls, leaves the counter exactly as it was: the count, total, depth and start time are all unchanged. |
| Tools.NestedCallsInvisible | utils/tools.py:165-177 | The same for a run of nested calls. |
| Tools.OuterCallCounted | utils/tools.py:165-177 | An outermost call adds exactly 1 to the count and exactly its own duration (exit minus outer enter) to the total, and returns the depth to 0. |
| Tools.OuterCallsCounted | utils/tools.py:103-177 | A run of outermost calls adds its number of calls to the count and the sum of their durations to the total. |
| Tools.ProfileCounter.constructor | utils/tools.py:135-145 | A new counter has no calls, no time and no open call. |
| Tools.ProfileCounter.AverageTime | utils/tools.py:158-163 | 0 with no calls counted. Otherwise the average times the call count is the total time. |
| Tools.ProfileCounter.Enter | utils/tools.py:165-169 | The depth grows by one, and the start time is taken only when no call was open. |
| Tools.ProfileCounter.Exit | utils/tools.py:171-177 | The depth drops by one. The count and total change only when it reaches 0. |
| Tools.WriteForwardsAndFlushes | utils/tools.py:202-205 | A write forwards all of its data. With a newline in it, the buffer is empty afterwards; without one, the data is added to what is pending. |
| Tools.UnbufferedHoldsNoLine | utils/tools.py:197-205 | A stream written only through Unbuffered never holds a complete line unflushed. |
| Tools.Unbuffered.Write | utils/tools.py:202-205 | The stream receives the write, followed by a flush exactly when the data holds a newline. |
| Tools.GetBoolEnvVar | utils/tools.py:268-273 | An absent variable is false. A non-integer value is a ValueError naming it. Otherwise the value is true exactly when the integer is not 0. |
| Tools.BoolEnvVarOfInt | utils/tools.py:268-273 | A variable holding `str(n)` reads as `n != 0`. |
| Tools.AnyBoolEnvVar | utils/tools.py:287 | `any()` over the variables: false only when every variable is false; true only when some variable is true; an error is the error of one of the variables. |
| Tools.AnyBoolEnvVarIff | utils/tools.py:287 | With well-formed variables, the scan is true exactly when one of them is true. |
| Tools.AnyBoolEnvVarErr | utils/tools.py:287 | A malformed variable reached before any true one makes the scan raise its error. |
| Tools.IsHeadless | utils/tools.py:276-287 | False only when both CHROME_HEADLESS and SWARMING_HEADLESS read as false; true only when one of them reads as true; an error is the error of one of them. |
| Tools.IsHeadlessIff | utils/tools.py:276-287 | When both variables are absent or integers, is_headless holds exactly when CHROME_HEADLESS or SWARMING_HEADLESS is a nonzero integer. |
| Tools.IsHeadlessShortCircuits | utils/tools.py:276-287 | A true CHROME_HEADLESS decides the answer whatever SWARMING_HEADLESS holds. |

## Left out

- NDB transactions, tasklets and `utilities.batch_process_async` (appengine/gce-backend/instances.py:180-254). Each transactional function is one atomic method, and the batch of `ensure_entity_exists` calls runs one URL after another, so interleavings and `max_concurrent` are not modelled.
- Foreign helpers are not part of this model. They are given these definitions:
  - `gce.extract_instance_name` is the text after the last `/`;
  - `pubsub.full_subscription_name` is `"projects/P/subscriptions/S"`;
  - `instance_group_managers.get_instance_group_manager_key` builds the manager key from three parts, and any other number of parts fails (None);
  - `instance_group_managers.set_instances` replaces an existing manager's instance set.
- `instance_group_managers.get_drained_instance_group_managers` is not part of this model. `ScheduleDrainedDeletion` takes its result as the `drained` parameter.
- Instances.Datastore.Fetch: when its guards pass, requires that some page ends the listing. A Compute API that hands out continuation tokens forever is not modelled. A listing item without an `instance` entry (a KeyError in the source) is not modelled: items are URLs.
- Calls into the Compute API are not modelled as calls. Their replies are inputs: the pages, and `DeleteReply` with an operation status or a `net.Error` status code. `utils.utcnow()` is the `now` parameter.
- `metrics.send_machine_event`, `utilities.enqueue_task` and `logging` are not modelled as calls. Events are an appended log, enqueued tasks are returned sequences, and log lines are not kept.
- Datastore timestamps are integers, not datetimes, and every datetime is taken as set (truthy).
- Instances.Datastore.SchedulePendingDeletion, Instances.Datastore.ScheduleFetch: they state which tasks are enqueued, not the order in which the datastore query yields them.
- Instances.Datastore.ScheduleDrainedDeletion: states which instances get a task, not how many. The source enqueues one task per pair of drained manager and listed instance, so an instance listed by two drained managers gets two tasks; the model takes the drained managers as a set, so a manager the query returns twice is scanned once here.
- Tools.ProfileCounter.Exit: requires an open call. An unmatched `__exit__` raises AttributeError on a thread that never entered. On a thread that entered before, it silently drives the depth from 0 to -1. From then on that thread's outermost calls take no start time and are not counted, since `__enter__` sees a nonzero depth and only raises it to 0; a call one level inside them starts from depth 0 and is counted with its own duration, as if it were outermost. The `with` statement always pairs enter and exit, so neither case arises.
- Tools.ProfileCounter.Enter: clock readings are integer ticks, not floating-point seconds. The counter is modelled for one thread, without its lock or thread-local storage.
- Tools.ProfileCounter.AverageTime: real division stands for floating-point division, with no rounding.
- Tools.GetBoolEnvVar: `int()` on a byte string is modelled as surrounding whitespace, an optional sign followed by optional whitespace, then ASCII digits. Any spelling outside that form is read as an error.
- Tools.Unbuffered.Write: attribute forwarding (`__getattr__`) is not modelled. The wrapped stream is the log of the writes and flushes it is asked to do.
- `OptionParserWithLogging`, `Profiler`, `ProfileCounter.summarize_all` and the `profile` decorator (utils/tools.py:30-100, 117-133, 180-194) are left out: logging setup, wall-clock timing, printing, atexit hooks.
- `read_json`, `write_json`, `format_json`, `disable_buffering`, `gen_blacklist` and `get_cacerts_bundle` (utils/tools.py:211-265, 290-303) are left out: file I/O, JSON, regular expressions, process environment and zip extraction.
