/**
 * Instance lifecycle for the GCE backend: discovery of the VMs of an
 * instance group manager, per-instance read-modify-write transitions, the
 * deletion decision procedure and the scan-and-enqueue schedulers.
 *
 * The datastore is a `Datastore` object whose maps are the entity kinds.
 * Each transactional function of the source is one atomic method on it.
 * Side effects on the outside world become logs on the same object:
 * entity writes (`puts`), machine events (`events`) and Compute API delete
 * requests (`deleteCalls`). API replies are inputs; enqueued tasks are
 * returned sequences.
 */
module Instances {
  import opened Wrappers
  import opened Text
  import opened Models

  // ---------------------------------------------------------------------------
  // Keys

  /** get_instance_key: the key "<base_name> <revision> <zone> <instance_name>". */
  function GetInstanceKey(baseName: string, revision: string, zone: string, instanceName: string): (k: InstanceKey)
    ensures k.id == baseName + " " + revision + " " + zone + " " + instanceName
  {
    JoinFour(baseName, revision, zone, instanceName);
    InstanceKey(JoinWithSpaces([baseName, revision, zone, instanceName]))
  }

  /**
   * get_instance_group_manager_key: split the key's id on whitespace, drop
   * the last field and key the manager by the three that remain (base name,
   * revision, zone). Any other number of fields makes that call fail: None.
   */
  function GetInstanceGroupManagerKey(key: InstanceKey): (r: Option<ManagerKey>)
    ensures r.Some? <==> |Split(key.id)| == 4
    ensures r.Some? ==>
      [r.value.parent.parent.baseName, r.value.parent.revision, r.value.zone] == Split(key.id)[..3]
  {
    var fields := Split(key.id);
    if |fields| == 4 then Some(ManagerKey(RevisionKey(TemplateKey(fields[0]), fields[1]), fields[2]))
    else None
  }

  /** A key part that survives the space-joined encoding: non-empty, no whitespace. */
  predicate IsKeyPart(s: string) {
    s != [] && NoSpace(s)
  }

  /** The manager key is recovered from every instance key built from clean parts. */
  lemma KeyRoundTrip(baseName: string, revision: string, zone: string, instanceName: string)
    requires IsKeyPart(baseName) && IsKeyPart(revision) && IsKeyPart(zone) && IsKeyPart(instanceName)
    ensures GetInstanceGroupManagerKey(GetInstanceKey(baseName, revision, zone, instanceName))
         == Some(ManagerKey(RevisionKey(TemplateKey(baseName), revision), zone))
  {
    SplitJoin([baseName, revision, zone, instanceName]);
  }

  /** An empty base name loses a field, so the manager key cannot be recovered. */
  lemma EmptyPartBreaksRoundTrip(revision: string, zone: string, instanceName: string)
    requires IsKeyPart(revision) && IsKeyPart(zone) && IsKeyPart(instanceName)
    ensures GetInstanceGroupManagerKey(GetInstanceKey("", revision, zone, instanceName)) == None
  {
    var parts := [revision, zone, instanceName];
    var id := GetInstanceKey("", revision, zone, instanceName).id;
    assert id == JoinWithSpaces([""] + parts) by {
      assert ["", revision, zone, instanceName] == [""] + parts;
    }
    SplitJoinEmptyFirst(parts);
    SplitJoin(parts);
    assert |Split(id)| == 3;
  }

  /** A base name holding a space gains a field, so the manager key cannot be recovered. */
  lemma SpacedPartBreaksRoundTrip(b1: string, b2: string, revision: string, zone: string, instanceName: string)
    requires IsKeyPart(b1) && IsKeyPart(b2) && IsKeyPart(revision) && IsKeyPart(zone) && IsKeyPart(instanceName)
    ensures GetInstanceGroupManagerKey(GetInstanceKey(b1 + " " + b2, revision, zone, instanceName)) == None
  {
    var rest := JoinWithSpaces([revision, zone, instanceName]);
    assert [revision, zone, instanceName] == [b1 + " " + b2, revision, zone, instanceName][1..];
    assert [revision, zone, instanceName] == [b1, b2, revision, zone, instanceName][2..];
    assert [b2, revision, zone, instanceName][1..] == [revision, zone, instanceName];
    assert [b2, revision, zone, instanceName] == [b1, b2, revision, zone, instanceName][1..];
    assert JoinWithSpaces([b1, b2, revision, zone, instanceName]) == b1 + " " + (b2 + " " + rest);
    assert GetInstanceKey(b1 + " " + b2, revision, zone, instanceName).id == b1 + " " + (b2 + " " + rest);
    SplitJoin([b1, b2, revision, zone, instanceName]);
  }

  /** gce.extract_instance_name: the last path segment of an instance URL. */
  function ExtractInstanceName(url: string): string {
    AfterLast(url, '/')
  }

  /** The key under which the instance at `url`, created by manager `mk`, is stored. */
  function InstanceKeyFor(mk: ManagerKey, url: string): InstanceKey {
    GetInstanceKey(mk.parent.parent.baseName, mk.parent.revision, mk.zone, ExtractInstanceName(url))
  }

  /** pubsub.full_subscription_name: the Pub/Sub resource name of a subscription. */
  function FullSubscriptionName(project: string, subscription: string): (name: string)
    ensures name != []
  {
    "projects/" + project + "/subscriptions/" + subscription
  }

  // ---------------------------------------------------------------------------
  // Listing pages (fetch)

  /** One reply of the Compute API's instance listing; "" stands for no next token. */
  datatype Page = Page(items: Option<seq<string>>, nextPageToken: string)

  /** A page after the first had no `items`: the source's `result['items']` raises. */
  datatype FetchError = ItemsMissing(page: nat)

  /** Some page at or after `i` has no continuation token, so the listing ends there. */
  predicate EndsListing(pages: seq<Page>, i: nat) {
    exists k :: i <= k < |pages| && pages[k].nextPageToken == ""
  }

  /** `k` is the first page without a continuation token. */
  predicate IsLastPage(pages: seq<Page>, k: nat) {
    k < |pages| && pages[k].nextPageToken == ""
    && forall j :: 0 <= j < k ==> pages[j].nextPageToken != ""
  }

  function Prepend(urls: seq<string>, r: Result<seq<string>, FetchError>): Result<seq<string>, FetchError> {
    match r
    case Ok(rest) => Ok(urls + rest)
    case Err(e) => Err(e)
  }

  lemma PrependTwice(a: seq<string>, b: seq<string>, r: Result<seq<string>, FetchError>)
    ensures Prepend(a, Prepend(b, r)) == Prepend(a + b, r)
  {
    if r.Ok? {
      assert a + (b + r.value) == (a + b) + r.value;
    }
  }

  /** The URLs of the pages requested after page `i`, following continuation tokens. */
  function ListedAfter(pages: seq<Page>, i: nat): Result<seq<string>, FetchError>
    requires i < |pages| && EndsListing(pages, i)
    decreases |pages| - i
  {
    if pages[i].nextPageToken == "" then Ok([])
    else
      assert EndsListing(pages, i + 1);
      match pages[i + 1].items
      case None => Err(ItemsMissing(i + 1))
      case Some(items) => Prepend(items, ListedAfter(pages, i + 1))
  }

  /** All URLs of a listing; the first page may lack `items`, which reads as none. */
  function Listing(pages: seq<Page>): Result<seq<string>, FetchError>
    requires EndsListing(pages, 0)
  {
    Prepend(pages[0].items.GetOr([]), ListedAfter(pages, 0))
  }

  function Flatten(chunks: seq<seq<string>>): seq<string> {
    if chunks == [] then [] else chunks[0] + Flatten(chunks[1..])
  }

  /** The items of each page, a missing `items` read as empty. */
  function PageItems(pages: seq<Page>): (chunks: seq<seq<string>>)
    ensures |chunks| == |pages|
    ensures forall i :: 0 <= i < |pages| ==> chunks[i] == pages[i].items.GetOr([])
  {
    if pages == [] then [] else [pages[0].items.GetOr([])] + PageItems(pages[1..])
  }

  lemma {:induction false} ListedAfterFlattens(pages: seq<Page>, k: nat, i: nat)
    requires IsLastPage(pages, k) && i <= k
    requires forall j :: 0 < j <= k ==> pages[j].items.Some?
    ensures EndsListing(pages, i)
    ensures ListedAfter(pages, i) == Ok(Flatten(PageItems(pages[i + 1..k + 1])))
    decreases k - i
  {
    assert pages[k].nextPageToken == "";
    if i == k {
      assert pages[i + 1..k + 1] == [];
    } else {
      ListedAfterFlattens(pages, k, i + 1);
      assert pages[i].nextPageToken != "";
      var items := pages[i + 1].items.value;
      var rest := Flatten(PageItems(pages[i + 2..k + 1]));
      assert ListedAfter(pages, i) == Prepend(items, Ok(rest));
      var chunks := PageItems(pages[i + 1..k + 1]);
      assert chunks[0] == items;
      assert chunks[1..] == PageItems(pages[i + 2..k + 1]) by {
        assert pages[i + 1..k + 1][1..] == pages[i + 2..k + 1];
      }
      assert Flatten(chunks) == items + rest;
    }
  }

  /**
   * When every page after the first carries `items`, the listing is the
   * in-order concatenation of the pages up to the first without a token;
   * later pages are never read.
   */
  lemma ListingIsConcatenation(pages: seq<Page>, k: nat)
    requires IsLastPage(pages, k)
    requires forall j :: 0 < j <= k ==> pages[j].items.Some?
    ensures EndsListing(pages, 0)
    ensures Listing(pages) == Ok(Flatten(PageItems(pages[..k + 1])))
  {
    ListedAfterFlattens(pages, k, 0);
    assert pages[..k + 1][1..] == pages[1..k + 1];
  }

  lemma {:induction false} ListedAfterFails(pages: seq<Page>, k: nat, j: nat, i: nat)
    requires IsLastPage(pages, k) && 0 < j <= k && i < j
    requires pages[j].items.None?
    requires forall l :: 0 < l < j ==> pages[l].items.Some?
    ensures EndsListing(pages, i)
    ensures ListedAfter(pages, i) == Err(ItemsMissing(j))
    decreases j - i
  {
    assert pages[k].nextPageToken == "";
    if i + 1 < j {
      ListedAfterFails(pages, k, j, i + 1);
    }
  }

  /** A later page without `items` makes the whole listing fail at the first such page. */
  lemma ListingFailsAtMissingItems(pages: seq<Page>, k: nat, j: nat)
    requires IsLastPage(pages, k) && 0 < j <= k
    requires pages[j].items.None?
    requires forall l :: 0 < l < j ==> pages[l].items.Some?
    ensures EndsListing(pages, 0)
    ensures Listing(pages) == Err(ItemsMissing(j))
  {
    ListedAfterFails(pages, k, j, 0);
  }

  // ---------------------------------------------------------------------------
  // Events, tasks and the Compute API's delete call

  datatype EventKind = Created | DeletionProposed | DeletionScheduled | DeletionSucceeded
  datatype MachineEvent = MachineEvent(kind: EventKind, name: string)

  /** A task handed to the task queue, by handler. */
  datatype Task =
    | FetchInstances(manager: ManagerKey)
    | DeleteInstancePendingDeletion(instance: InstanceKey)
    | DeleteDrainedInstance(instance: InstanceKey)

  /** A delete_instances request: project, manager and the one instance URL. */
  datatype DeleteCall = DeleteCall(project: string, manager: ManagerKey, url: string)

  /** What delete_instances gives back: an operation with a status, or a net.Error. */
  datatype DeleteReply = Operation(status: string) | NetError(statusCode: int)

  /** How `_delete` reacts to a reply. */
  datatype Reaction = Retry | Record(kind: EventKind) | Raise(statusCode: int)

  function React(reply: DeleteReply): (r: Reaction)
    ensures r.Record? <==> reply == Operation("DONE") || reply == NetError(400)
    ensures r.Raise? ==> reply.NetError? && r.statusCode == reply.statusCode
    ensures reply == Operation("DONE") ==> r == Record(DeletionScheduled)
    ensures reply == NetError(400) ==> r == Record(DeletionSucceeded)
    ensures reply.Operation? && reply.status != "DONE" ==> r == Retry
    ensures reply.NetError? && reply.statusCode != 400 ==> r == Raise(reply.statusCode)
  {
    match reply
    case Operation(status) => if status != "DONE" then Retry else Record(DeletionScheduled)
    case NetError(code) => if code == 400 then Record(DeletionSucceeded) else Raise(code)
  }

  predicate Distinct<T(==)>(s: seq<T>) {
    forall i, j :: 0 <= i < j < |s| ==> s[i] != s[j]
  }

  // ---------------------------------------------------------------------------
  // The instance store and its transitions as values

  type Store = map<InstanceKey, Instance>

  /**
   * What no transition ever undoes on a record: its identity, a set
   * deletion time, the pending-deletion mark and a recorded subscription.
   */
  predicate Stable(before: Instance, after: Instance) {
    && after.url == before.url
    && after.instanceGroupManager == before.instanceGroupManager
    && (before.deletionTs.Some? ==> after.deletionTs == before.deletionTs)
    && (before.pendingDeletion ==> after.pendingDeletion)
    && (before.pubsubSubscription != "" ==>
          && after.pubsubSubscription == before.pubsubSubscription
          && after.pubsubServiceAccount == before.pubsubServiceAccount
          && after.pendingMetadataUpdates == before.pendingMetadataUpdates)
  }

  /** Records are never removed and every record moves only forward. */
  predicate Evolves(before: Store, after: Store) {
    && before.Keys <= after.Keys
    && forall k :: k in before ==> Stable(before[k], after[k])
  }

  lemma EvolvesTransitive(a: Store, b: Store, c: Store)
    requires Evolves(a, b) && Evolves(b, c)
    ensures Evolves(a, c)
  {
  }

  /** The store after mark_for_deletion(key). */
  function Marked(m: Store, key: InstanceKey): (r: Store)
    ensures Evolves(m, r) && r.Keys == m.Keys
    ensures forall k :: k in m && k != key ==> r[k] == m[k]
    ensures key in m ==> r[key].pendingDeletion
  {
    if key in m && !m[key].pendingDeletion then
      m[key := m[key].(leaseExpirationTs := None, pendingDeletion := true)]
    else m
  }

  /** Marking is idempotent. */
  lemma MarkedIdempotent(m: Store, key: InstanceKey)
    ensures Marked(Marked(m, key), key) == Marked(m, key)
  {
  }

  /** The store after add_subscription_metadata(key, project, subscription, serviceAccount). */
  function WithSubscription(m: Store, key: InstanceKey, project: string, subscription: string, serviceAccount: string): (r: Store)
    ensures Evolves(m, r) && r.Keys == m.Keys
    ensures forall k :: k in m && k != key ==> r[k] == m[k]
    ensures key in m ==> r[key].pubsubSubscription != ""
  {
    if key in m && m[key].pubsubSubscription == "" then
      var i := m[key];
      m[key := i.(
        pendingMetadataUpdates := i.pendingMetadataUpdates + [MetadataUpdate(serviceAccount, subscription, project)],
        pubsubServiceAccount := serviceAccount,
        pubsubSubscription := FullSubscriptionName(project, subscription))]
    else m
  }

  /** First write wins: a second subscription leaves the first one's values in place. */
  lemma SubscriptionFirstWriteWins(m: Store, key: InstanceKey, p1: string, s1: string, a1: string, p2: string, s2: string, a2: string)
    ensures WithSubscription(WithSubscription(m, key, p1, s1, a1), key, p2, s2, a2) == WithSubscription(m, key, p1, s1, a1)
  {
  }

  /** The store after add_lease_expiration_ts(key, ts). */
  function WithLease(m: Store, key: InstanceKey, ts: Option<int>): (r: Store)
    ensures r.Keys == m.Keys
    ensures forall k :: k in m && k != key ==> r[k] == m[k]
    ensures key in m ==> r[key] == m[key].(leaseExpirationTs := ts)
  {
    if key in m && m[key].leaseExpirationTs != ts then m[key := m[key].(leaseExpirationTs := ts)] else m
  }

  /** The last lease written is the one kept; the lease never touches the lifecycle fields. */
  lemma LeaseLastWriteWins(m: Store, key: InstanceKey, t1: Option<int>, t2: Option<int>)
    ensures WithLease(WithLease(m, key, t1), key, t2) == WithLease(m, key, t2)
    ensures Evolves(m, WithLease(m, key, t1))
  {
  }

  /** The store after set_deletion_time(key, ts). */
  function DeletionTimeSet(m: Store, key: InstanceKey, ts: int): (r: Store)
    ensures Evolves(m, r) && r.Keys == m.Keys
    ensures forall k :: k in m && k != key ==> r[k] == m[k]
    ensures key in m ==> r[key].deletionTs.Some?
    ensures key in m && m[key].deletionTs.None? ==> r[key] == m[key].(deletionTs := Some(ts))
    ensures key in m && m[key].deletionTs.Some? ==> r[key] == m[key]
  {
    if key in m && m[key].deletionTs.None? then m[key := m[key].(deletionTs := Some(ts))] else m
  }

  /** First write wins: a later deletion time never replaces an earlier one. */
  lemma DeletionTimeFirstWriteWins(m: Store, key: InstanceKey, t1: int, t2: int)
    ensures DeletionTimeSet(DeletionTimeSet(m, key, t1), key, t2) == DeletionTimeSet(m, key, t1)
  {
  }

  /** The store after _ensure_entity_exists(key, url, manager). */
  function WithEntity(m: Store, key: InstanceKey, url: string, manager: ManagerKey): (r: Store)
    ensures Evolves(m, r) && r.Keys == m.Keys + {key}
    ensures forall k :: k in m ==> r[k] == m[k]
  {
    if key in m then m else m[key := NewInstance(url, manager)]
  }

  /** The store after ensuring an entity for each of `urls`, in order. */
  function EnsureAll(m: Store, mk: ManagerKey, urls: seq<string>): Store {
    if urls == [] then m
    else
      var last := urls[|urls| - 1];
      WithEntity(EnsureAll(m, mk, urls[..|urls| - 1]), InstanceKeyFor(mk, last), last, mk)
  }

  /** The URLs, in order, whose entity did not exist yet when its turn came. */
  function CreatedUrls(m: Store, mk: ManagerKey, urls: seq<string>): seq<string> {
    if urls == [] then []
    else
      var last := urls[|urls| - 1];
      var prefix := urls[..|urls| - 1];
      CreatedUrls(m, mk, prefix)
        + (if InstanceKeyFor(mk, last) in EnsureAll(m, mk, prefix) then [] else [last])
  }

  /** The keys derived from a list of URLs. */
  function DerivedKeys(mk: ManagerKey, urls: seq<string>): set<InstanceKey> {
    set u | u in urls :: InstanceKeyFor(mk, u)
  }

  function KeysOf(mk: ManagerKey, urls: seq<string>): (keys: seq<InstanceKey>)
    ensures |keys| == |urls|
  {
    if urls == [] then [] else KeysOf(mk, urls[..|urls| - 1]) + [InstanceKeyFor(mk, urls[|urls| - 1])]
  }

  function CreatedEvents(urls: seq<string>): (events: seq<MachineEvent>)
    ensures |events| == |urls|
  {
    if urls == [] then [] else CreatedEvents(urls[..|urls| - 1]) + [MachineEvent(Created, ExtractInstanceName(urls[|urls| - 1]))]
  }

  /** After discovery every derived key exists and existing records are left as they were. */
  lemma {:induction false} EnsureAllKeeps(m: Store, mk: ManagerKey, urls: seq<string>)
    ensures var r := EnsureAll(m, mk, urls);
      && r.Keys == m.Keys + DerivedKeys(mk, urls)
      && (forall k :: k in m ==> r[k] == m[k])
      && Evolves(m, r)
  {
    if urls != [] {
      var prefix := urls[..|urls| - 1];
      var last := urls[|urls| - 1];
      EnsureAllKeeps(m, mk, prefix);
      DerivedKeysSnoc(mk, urls);
      var r0 := EnsureAll(m, mk, prefix);
      var r := WithEntity(r0, InstanceKeyFor(mk, last), last, mk);
      assert r == EnsureAll(m, mk, urls);
      EvolvesTransitive(m, r0, r);
    }
  }

  /** The derived keys of a non-empty list are those of its prefix plus the last one's. */
  lemma DerivedKeysSnoc(mk: ManagerKey, urls: seq<string>)
    requires urls != []
    ensures DerivedKeys(mk, urls) == DerivedKeys(mk, urls[..|urls| - 1]) + {InstanceKeyFor(mk, urls[|urls| - 1])}
  {
    assert urls == urls[..|urls| - 1] + [urls[|urls| - 1]];
  }

  /** One record is created per URL in CreatedUrls, so the store grows by exactly that many. */
  lemma {:induction false} EnsureAllCreates(m: Store, mk: ManagerKey, urls: seq<string>)
    ensures |EnsureAll(m, mk, urls)| == |m| + |CreatedUrls(m, mk, urls)|
  {
    if urls != [] {
      var prefix := urls[..|urls| - 1];
      var last := urls[|urls| - 1];
      EnsureAllCreates(m, mk, prefix);
      var r0 := EnsureAll(m, mk, prefix);
      var key := InstanceKeyFor(mk, last);
      if key !in r0 {
        assert |r0[key := NewInstance(last, mk)]| == |r0| + 1;
      }
    }
  }

  /** Every record discovery adds is a fresh Instance for one of the URLs it created. */
  lemma {:induction false} EnsureAllNewRecords(m: Store, mk: ManagerKey, urls: seq<string>)
    ensures forall k :: k in EnsureAll(m, mk, urls) && k !in m ==>
      exists u :: u in CreatedUrls(m, mk, urls) && k == InstanceKeyFor(mk, u) && EnsureAll(m, mk, urls)[k] == NewInstance(u, mk)
  {
    if urls != [] {
      var prefix := urls[..|urls| - 1];
      var last := urls[|urls| - 1];
      EnsureAllNewRecords(m, mk, prefix);
      var r0 := EnsureAll(m, mk, prefix);
      var r := EnsureAll(m, mk, urls);
      var key := InstanceKeyFor(mk, last);
      forall k | k in r && k !in m
        ensures exists u :: u in CreatedUrls(m, mk, urls) && k == InstanceKeyFor(mk, u) && r[k] == NewInstance(u, mk)
      {
        if k in r0 {
          var u :| u in CreatedUrls(m, mk, prefix) && k == InstanceKeyFor(mk, u) && r0[k] == NewInstance(u, mk);
          assert u in CreatedUrls(m, mk, urls);
        } else {
          assert k == key && last in CreatedUrls(m, mk, urls);
        }
      }
    }
  }

  /**
   * Discovery is idempotent: once every derived key exists, running it again
   * over the same URLs changes nothing and creates nothing.
   */
  lemma {:induction false} EnsureAllIdempotent(m: Store, mk: ManagerKey, urls: seq<string>)
    requires DerivedKeys(mk, urls) <= m.Keys
    ensures EnsureAll(m, mk, urls) == m
    ensures CreatedUrls(m, mk, urls) == []
  {
    if urls != [] {
      var prefix := urls[..|urls| - 1];
      assert DerivedKeys(mk, prefix) <= DerivedKeys(mk, urls);
      EnsureAllIdempotent(m, mk, prefix);
      assert InstanceKeyFor(mk, urls[|urls| - 1]) in DerivedKeys(mk, urls);
    }
  }

  /** Running discovery twice over an unchanged URL list creates nothing the second time. */
  lemma DiscoveryTwice(m: Store, mk: ManagerKey, urls: seq<string>)
    ensures EnsureAll(EnsureAll(m, mk, urls), mk, urls) == EnsureAll(m, mk, urls)
    ensures CreatedUrls(EnsureAll(m, mk, urls), mk, urls) == []
  {
    EnsureAllKeeps(m, mk, urls);
    EnsureAllIdempotent(EnsureAll(m, mk, urls), mk, urls);
  }

  /** One more URL: the fold and the created list each take one step. */
  lemma DiscoveryStep(m: Store, mk: ManagerKey, urls: seq<string>, i: nat)
    requires i < |urls|
    ensures var prefix := EnsureAll(m, mk, urls[..i]);
      && EnsureAll(m, mk, urls[..i + 1]) == WithEntity(prefix, InstanceKeyFor(mk, urls[i]), urls[i], mk)
      && CreatedUrls(m, mk, urls[..i + 1])
         == CreatedUrls(m, mk, urls[..i]) + (if InstanceKeyFor(mk, urls[i]) in prefix then [] else [urls[i]])
  {
    assert urls[..i + 1][..i] == urls[..i];
  }

  /** One more URL of a batch adds its key to the write log exactly when its entity is new. */
  lemma BatchStepPuts(m0: Store, mk: ManagerKey, urls: seq<string>, i: nat, puts0: seq<InstanceKey>)
    requires i < |urls|
    ensures var k := InstanceKeyFor(mk, urls[i]);
      puts0 + KeysOf(mk, CreatedUrls(m0, mk, urls[..i + 1]))
      == puts0 + KeysOf(mk, CreatedUrls(m0, mk, urls[..i])) + (if k in EnsureAll(m0, mk, urls[..i]) then [] else [k])
  {
    CreatedStep(m0, mk, urls, i);
    var isNew := InstanceKeyFor(mk, urls[i]) !in EnsureAll(m0, mk, urls[..i]);
    LogsAppend(mk, puts0, [], CreatedUrls(m0, mk, urls[..i]), CreatedUrls(m0, mk, urls[..i + 1]), urls[i], isNew);
  }

  /** One more URL of a batch adds a CREATED event to the event log exactly when its entity is new. */
  lemma BatchStepEvents(m0: Store, mk: ManagerKey, urls: seq<string>, i: nat, events0: seq<MachineEvent>)
    requires i < |urls|
    ensures var k := InstanceKeyFor(mk, urls[i]);
      events0 + CreatedEvents(CreatedUrls(m0, mk, urls[..i + 1]))
      == events0 + CreatedEvents(CreatedUrls(m0, mk, urls[..i]))
         + (if k in EnsureAll(m0, mk, urls[..i]) then [] else [MachineEvent(Created, ExtractInstanceName(urls[i]))])
  {
    CreatedStep(m0, mk, urls, i);
    var isNew := InstanceKeyFor(mk, urls[i]) !in EnsureAll(m0, mk, urls[..i]);
    LogsAppend(mk, [], events0, CreatedUrls(m0, mk, urls[..i]), CreatedUrls(m0, mk, urls[..i + 1]), urls[i], isNew);
  }

  /** The write and event logs of a created list that grew by `u` exactly when `isNew`. */
  lemma LogsAppend(mk: ManagerKey, puts0: seq<InstanceKey>, events0: seq<MachineEvent>,
                   c: seq<string>, c': seq<string>, u: string, isNew: bool)
    requires c' == c + (if isNew then [u] else [])
    ensures puts0 + KeysOf(mk, c') == puts0 + KeysOf(mk, c) + (if isNew then [InstanceKeyFor(mk, u)] else [])
    ensures events0 + CreatedEvents(c') ==
      events0 + CreatedEvents(c) + (if isNew then [MachineEvent(Created, ExtractInstanceName(u))] else [])
  {
    if isNew {
      LogsStep(mk, c, u);
      assert puts0 + KeysOf(mk, c) + [InstanceKeyFor(mk, u)] == puts0 + (KeysOf(mk, c) + [InstanceKeyFor(mk, u)]);
      var e := MachineEvent(Created, ExtractInstanceName(u));
      assert events0 + CreatedEvents(c) + [e] == events0 + (CreatedEvents(c) + [e]);
    } else {
      assert c' == c;
      assert puts0 + KeysOf(mk, c) + [] == puts0 + KeysOf(mk, c);
      assert events0 + CreatedEvents(c) + [] == events0 + CreatedEvents(c);
    }
  }

  /** The created list of one more URL, with the case split made. */
  lemma CreatedStep(m0: Store, mk: ManagerKey, urls: seq<string>, i: nat)
    requires i < |urls|
    ensures CreatedUrls(m0, mk, urls[..i + 1]) == CreatedUrls(m0, mk, urls[..i])
      + (if InstanceKeyFor(mk, urls[i]) !in EnsureAll(m0, mk, urls[..i]) then [urls[i]] else [])
  {
    DiscoveryStep(m0, mk, urls, i);
  }

  lemma LogsStep(mk: ManagerKey, us: seq<string>, u: string)
    ensures KeysOf(mk, us + [u]) == KeysOf(mk, us) + [InstanceKeyFor(mk, u)]
    ensures CreatedEvents(us + [u]) == CreatedEvents(us) + [MachineEvent(Created, ExtractInstanceName(u))]
  {
    assert (us + [u])[..|us|] == us;
  }

  // ---------------------------------------------------------------------------
  // The datastore and the operations on it

  class Datastore {
    var templates: map<TemplateKey, InstanceTemplate>
    var revisions: map<RevisionKey, InstanceTemplateRevision>
    var managers: map<ManagerKey, InstanceGroupManager>
    var instances: Store
    /** Instance keys in the order their entities were written. */
    var puts: seq<InstanceKey>
    /** Machine events sent, in order. */
    var events: seq<MachineEvent>
    /** Compute API delete requests sent, in order. */
    var deleteCalls: seq<DeleteCall>

    constructor (
      templates: map<TemplateKey, InstanceTemplate>,
      revisions: map<RevisionKey, InstanceTemplateRevision>,
      managers: map<ManagerKey, InstanceGroupManager>,
      instances: Store)
      ensures this.templates == templates && this.revisions == revisions
      ensures this.managers == managers && this.instances == instances
      ensures puts == [] && events == [] && deleteCalls == []
    {
      this.templates := templates;
      this.revisions := revisions;
      this.managers := managers;
      this.instances := instances;
      puts := [];
      events := [];
      deleteCalls := [];
    }

    /** instance.put() */
    method Put(key: InstanceKey, instance: Instance)
      modifies this`instances, this`puts
      ensures instances == old(instances)[key := instance]
      ensures puts == old(puts) + [key]
    {
      instances := instances[key := instance];
      puts := puts + [key];
    }

    /**
     * mark_for_deletion: set pending_deletion and clear the lease, once;
     * an already marked or missing instance is neither written nor reported.
     */
    method MarkForDeletion(key: InstanceKey)
      modifies this`instances, this`puts, this`events
      ensures instances == Marked(old(instances), key)
      ensures Evolves(old(instances), instances)
      ensures key in old(instances) && !old(instances)[key].pendingDeletion ==>
        && instances[key] == old(instances)[key].(pendingDeletion := true, leaseExpirationTs := None)
        && puts == old(puts) + [key]
        && events == old(events) + [MachineEvent(DeletionProposed, old(instances)[key].hostname)]
      ensures key !in old(instances) || old(instances)[key].pendingDeletion ==>
        instances == old(instances) && puts == old(puts) && events == old(events)
    {
      if key !in instances {
        return;
      }
      var instance := instances[key];
      if !instance.pendingDeletion {
        instance := instance.(leaseExpirationTs := None);
        instance := instance.(pendingDeletion := true);
        Put(key, instance);
        events := events + [MachineEvent(DeletionProposed, instance.hostname)];
      }
    }

    /**
     * add_subscription_metadata: the first subscription recorded wins; it
     * queues one metadata update and records the service account and the
     * subscription's full name.
     */
    method AddSubscriptionMetadata(key: InstanceKey, subscriptionProject: string, subscription: string, serviceAccount: string)
      modifies this`instances, this`puts
      ensures instances == WithSubscription(old(instances), key, subscriptionProject, subscription, serviceAccount)
      ensures Evolves(old(instances), instances)
      ensures key in old(instances) && old(instances)[key].pubsubSubscription == "" ==>
        && instances[key].pendingMetadataUpdates
             == old(instances)[key].pendingMetadataUpdates + [MetadataUpdate(serviceAccount, subscription, subscriptionProject)]
        && instances[key].pubsubServiceAccount == serviceAccount
        && instances[key].pubsubSubscription == FullSubscriptionName(subscriptionProject, subscription)
        && puts == old(puts) + [key]
      ensures key !in old(instances) || old(instances)[key].pubsubSubscription != "" ==>
        instances == old(instances) && puts == old(puts)
    {
      if key !in instances {
        return;
      }
      var instance := instances[key];
      if instance.pubsubSubscription != "" {
        return;
      }
      instance := instance.(pendingMetadataUpdates := instance.pendingMetadataUpdates
        + [MetadataUpdate(serviceAccount, subscription, subscriptionProject)]);
      instance := instance.(pubsubServiceAccount := serviceAccount);
      instance := instance.(pubsubSubscription := FullSubscriptionName(subscriptionProject, subscription));
      Put(key, instance);
    }

    /** add_lease_expiration_ts: write the lease only when it differs from the stored one. */
    method AddLeaseExpirationTs(key: InstanceKey, leaseExpirationTs: Option<int>)
      modifies this`instances, this`puts
      ensures instances == WithLease(old(instances), key, leaseExpirationTs)
      ensures Evolves(old(instances), instances)
      ensures puts == old(puts) + (if key in old(instances) && old(instances)[key].leaseExpirationTs != leaseExpirationTs then [key] else [])
    {
      if key !in instances {
        return;
      }
      var instance := instances[key];
      if instance.leaseExpirationTs == leaseExpirationTs {
        return;
      }
      instance := instance.(leaseExpirationTs := leaseExpirationTs);
      Put(key, instance);
    }

    /** set_deletion_time: record when the delete RPC was sent, only if no time is recorded yet. */
    method SetDeletionTime(key: InstanceKey, ts: int)
      modifies this`instances, this`puts
      ensures instances == DeletionTimeSet(old(instances), key, ts)
      ensures Evolves(old(instances), instances)
      ensures puts == old(puts) + (if key in old(instances) && old(instances)[key].deletionTs.None? then [key] else [])
    {
      if key !in instances {
        return;
      }
      var instance := instances[key];
      if instance.deletionTs.Some? {
        return;
      }
      instance := instance.(deletionTs := Some(ts));
      Put(key, instance);
    }

    /** _ensure_entity_exists: create the entity unless it exists; report whether it was written. */
    method CreateIfAbsent(key: InstanceKey, url: string, manager: ManagerKey) returns (put: bool)
      modifies this`instances, this`puts
      ensures put <==> key !in old(instances)
      ensures instances == WithEntity(old(instances), key, url, manager)
      ensures key in instances && Evolves(old(instances), instances)
      ensures puts == old(puts) + (if put then [key] else [])
    {
      if key in instances {
        return false;
      }
      Put(key, NewInstance(url, manager));
      return true;
    }

    /** ensure_entity_exists: CREATED is sent exactly when a new entity was written. */
    method EnsureEntityExists(key: InstanceKey, url: string, manager: ManagerKey)
      modifies this`instances, this`puts, this`events
      ensures instances == WithEntity(old(instances), key, url, manager)
      ensures key in instances && Evolves(old(instances), instances)
      ensures key in old(instances) ==> puts == old(puts) && events == old(events)
      ensures key !in old(instances) ==>
        && instances[key] == NewInstance(url, manager)
        && puts == old(puts) + [key]
        && events == old(events) + [MachineEvent(Created, ExtractInstanceName(url))]
    {
      if key in instances {
        return;
      }
      var put := CreateIfAbsent(key, url, manager);
      if put {
        events := events + [MachineEvent(Created, ExtractInstanceName(url))];
      }
    }

    /** The guards `fetch` checks before it asks the Compute API for anything. */
    predicate CanList(key: ManagerKey)
      reads this
    {
      && key in managers
      && managers[key].url != ""
      && key.parent in revisions
      && revisions[key.parent].project != ""
    }

    /** What `fetch` returns for a manager, given the API's pages. */
    function Fetched(key: ManagerKey, pages: seq<Page>): Result<seq<string>, FetchError>
      reads this
      requires CanList(key) ==> EndsListing(pages, 0)
    {
      if CanList(key) then Listing(pages) else Ok([])
    }

    /**
     * fetch: no URLs when a guard fails; otherwise the items of every page,
     * in order, up to the first page without a continuation token.
     */
    method Fetch(key: ManagerKey, pages: seq<Page>) returns (r: Result<seq<string>, FetchError>)
      requires CanList(key) ==> EndsListing(pages, 0)
      ensures !CanList(key) ==> r == Ok([])
      ensures CanList(key) ==> r == Listing(pages)
    {
      if key !in managers || managers[key].url == "" {
        return Ok([]);
      }
      if key.parent !in revisions || revisions[key.parent].project == "" {
        return Ok([]);
      }
      var result := pages[0];
      var urls := result.items.GetOr([]);
      var i := 0;
      while result.nextPageToken != ""
        invariant i < |pages| && result == pages[i]
        invariant EndsListing(pages, i)
        invariant Listing(pages) == Prepend(urls, ListedAfter(pages, i))
        decreases |pages| - i
      {
        assert EndsListing(pages, i + 1);
        i := i + 1;
        result := pages[i];
        if result.items.None? {
          return Err(ItemsMissing(i));
        }
        PrependTwice(urls, result.items.value, ListedAfter(pages, i));
        urls := urls + result.items.value;
      }
      assert urls + [] == urls;
      return Ok(urls);
    }

    /** instance_group_managers.set_instances: overwrite the manager's instance keys if it exists. */
    method SetInstances(key: ManagerKey, keys: set<InstanceKey>)
      modifies this`managers
      ensures key in old(managers) ==> managers == old(managers)[key := old(managers)[key].(instances := keys)]
      ensures key !in old(managers) ==> managers == old(managers)
    {
      if key in managers {
        managers := managers[key := managers[key].(instances := keys)];
      }
    }

    /** The state after the first `i` URLs of a discovery batch, from `m0`, `puts0` and `events0`. */
    ghost predicate EnsuredUpTo(key: ManagerKey, urls: seq<string>, i: nat, m0: Store, puts0: seq<InstanceKey>, events0: seq<MachineEvent>)
      reads this
      requires i <= |urls|
    {
      && instances == EnsureAll(m0, key, urls[..i])
      && puts == puts0 + KeysOf(key, CreatedUrls(m0, key, urls[..i]))
      && events == events0 + CreatedEvents(CreatedUrls(m0, key, urls[..i]))
    }

    /**
     * The batch of ensure_entity_exists calls, one URL after the other, each
     * under the key derived from the manager and the URL's instance name.
     */
    method EnsureEach(key: ManagerKey, urls: seq<string>)
      modifies this`instances, this`puts, this`events
      ensures instances == EnsureAll(old(instances), key, urls)
      ensures puts == old(puts) + KeysOf(key, CreatedUrls(old(instances), key, urls))
      ensures events == old(events) + CreatedEvents(CreatedUrls(old(instances), key, urls))
    {
      ghost var m0 := instances;
      ghost var puts0 := puts;
      ghost var events0 := events;
      assert puts0 + [] == puts0 && events0 + [] == events0;
      var i := 0;
      while i < |urls|
        invariant 0 <= i <= |urls|
        invariant EnsuredUpTo(key, urls, i, m0, puts0, events0)
      {
        var u := urls[i];
        var k := InstanceKeyFor(key, u);
        EnsureEntityExists(k, u, key);
        DiscoveryStep(m0, key, urls, i);
        BatchStepPuts(m0, key, urls, i, puts0);
        BatchStepEvents(m0, key, urls, i, events0);
        i := i + 1;
      }
      assert urls[..i] == urls;
    }

    /**
     * ensure_entities_exist: fetch the URLs, ensure an entity for each,
     * then set the manager's instances to the derived keys (none when
     * nothing was listed). A failed listing raises before anything is written.
     */
    method EnsureEntitiesExist(key: ManagerKey, pages: seq<Page>) returns (raised: Option<FetchError>)
      requires CanList(key) ==> EndsListing(pages, 0)
      modifies this`instances, this`puts, this`events, this`managers
      ensures old(Fetched(key, pages)).Err? ==>
        && raised == Some(old(Fetched(key, pages)).error)
        && instances == old(instances) && puts == old(puts) && events == old(events) && managers == old(managers)
      ensures old(Fetched(key, pages)).Ok? ==>
        var urls := old(Fetched(key, pages)).value;
        var created := CreatedUrls(old(instances), key, urls);
        && raised == None
        && instances == EnsureAll(old(instances), key, urls)
        && puts == old(puts) + KeysOf(key, created)
        && events == old(events) + CreatedEvents(created)
        && (key in old(managers) ==> managers == old(managers)[key := old(managers)[key].(instances := DerivedKeys(key, urls))])
        && (key !in old(managers) ==> managers == old(managers))
    {
      var fetched := Fetch(key, pages);
      if fetched.Err? {
        return Some(fetched.error);
      }
      var urls := fetched.value;
      if urls == [] {
        assert DerivedKeys(key, urls) == {};
        SetInstances(key, {});
        return None;
      }
      EnsureEach(key, urls);
      SetInstances(key, DerivedKeys(key, urls));
      return None;
    }

    // -------------------------------------------------------------------------
    // Deletion

    /** The ancestors `_delete` needs exist and the revision names a project. */
    predicate HasDeletionContext(instance: Instance)
      reads this
    {
      && instance.url != ""
      && instance.instanceGroupManager in managers
      && instance.instanceGroupManager.parent in revisions
      && revisions[instance.instanceGroupManager.parent].project != ""
    }

    /** The delete request `_delete` would send for this instance. */
    function CallFor(key: InstanceKey): DeleteCall
      reads this
      requires key in instances && HasDeletionContext(instances[key])
    {
      var instance := instances[key];
      DeleteCall(revisions[instance.instanceGroupManager.parent].project, instance.instanceGroupManager, instance.url)
    }

    /** delete_pending reaches `_delete`: not yet deleted, marked, and with its full context. */
    predicate PendingDeletable(key: InstanceKey)
      reads this
    {
      && key in instances
      && instances[key].deletionTs.None?
      && instances[key].pendingDeletion
      && HasDeletionContext(instances[key])
    }

    /**
     * A manager is drained when its revision lists it, or when the template
     * lists its revision.
     */
    predicate IsDrained(mk: ManagerKey)
      reads this
      requires mk.parent in revisions && mk.parent.parent in templates
    {
      mk in revisions[mk.parent].drained || mk.parent in templates[mk.parent.parent].drained
    }

    /**
     * delete_drained reaches `_delete`: not yet deleted, not cataloged, with
     * its full context and template, and its manager drained.
     */
    predicate DrainedDeletable(key: InstanceKey)
      reads this
    {
      && key in instances
      && instances[key].deletionTs.None?
      && !instances[key].cataloged
      && HasDeletionContext(instances[key])
      && instances[key].instanceGroupManager.parent.parent in templates
      && IsDrained(instances[key].instanceGroupManager)
    }

    /**
     * The effect of one delete request for `key` and the API's `reply`:
     * the request is logged; DONE or a 400 error records the deletion time
     * (first write wins) and sends the matching event; another status
     * changes nothing more; another error is raised and changes nothing more.
     */
    twostate predicate DeletionApplied(key: InstanceKey, call: DeleteCall, hostname: string, reply: DeleteReply, now: int, new raised: Option<int>)
      reads this
    {
      && deleteCalls == old(deleteCalls) + [call]
      && match React(reply)
         case Retry =>
           raised == None && instances == old(instances) && puts == old(puts) && events == old(events)
         case Record(kind) =>
           && raised == None
           && instances == DeletionTimeSet(old(instances), key, now)
           && puts == old(puts) + (if key in old(instances) && old(instances)[key].deletionTs.None? then [key] else [])
           && events == old(events) + [MachineEvent(kind, hostname)]
         case Raise(code) =>
           raised == Some(code) && instances == old(instances) && puts == old(puts) && events == old(events)
    }

    /**
     * _delete: nothing when a deletion time is already recorded; otherwise
     * send the delete request and react to the reply. `reply` is what the
     * Compute API answers; `now` is the time taken before the request.
     */
    method Delete(revision: InstanceTemplateRevision, managerKey: ManagerKey, key: InstanceKey, instance: Instance, reply: DeleteReply, now: int)
      returns (raised: Option<int>)
      modifies this`instances, this`puts, this`events, this`deleteCalls
      ensures Evolves(old(instances), instances)
      ensures instance.deletionTs.Some? ==>
        raised == None && instances == old(instances) && puts == old(puts) && events == old(events) && deleteCalls == old(deleteCalls)
      ensures instance.deletionTs.None? ==>
        DeletionApplied(key, DeleteCall(revision.project, managerKey, instance.url), instance.hostname, reply, now, raised)
    {
      if instance.deletionTs.Some? {
        return None;
      }
      deleteCalls := deleteCalls + [DeleteCall(revision.project, managerKey, instance.url)];
      match reply {
        case Operation(status) =>
          if status != "DONE" {
            return None;
          }
          SetDeletionTime(key, now);
          events := events + [MachineEvent(DeletionScheduled, instance.hostname)];
          return None;
        case NetError(code) =>
          if code == 400 {
            SetDeletionTime(key, now);
            events := events + [MachineEvent(DeletionSucceeded, instance.hostname)];
            return None;
          }
          return Some(code);
      }
    }

    /** delete_pending: `_delete` exactly when every guard holds; otherwise nothing at all. */
    method DeletePending(key: InstanceKey, reply: DeleteReply, now: int) returns (raised: Option<int>)
      modifies this`instances, this`puts, this`events, this`deleteCalls
      ensures Evolves(old(instances), instances)
      ensures !old(PendingDeletable(key)) ==>
        raised == None && instances == old(instances) && puts == old(puts) && events == old(events) && deleteCalls == old(deleteCalls)
      ensures old(PendingDeletable(key)) ==>
        DeletionApplied(key, old(CallFor(key)), old(instances[key].hostname), reply, now, raised)
    {
      if key !in instances {
        return None;
      }
      var instance := instances[key];
      if instance.deletionTs.Some? {
        return None;
      }
      if !instance.pendingDeletion {
        return None;
      }
      if instance.url == "" {
        return None;
      }
      if instance.instanceGroupManager !in managers {
        return None;
      }
      var managerKey := instance.instanceGroupManager;
      if managerKey.parent !in revisions {
        return None;
      }
      var revision := revisions[managerKey.parent];
      if revision.project == "" {
        return None;
      }
      raised := Delete(revision, managerKey, key, instance, reply, now);
    }

    /** delete_drained: `_delete` exactly when every guard holds; otherwise nothing at all. */
    method DeleteDrained(key: InstanceKey, reply: DeleteReply, now: int) returns (raised: Option<int>)
      modifies this`instances, this`puts, this`events, this`deleteCalls
      ensures Evolves(old(instances), instances)
      ensures !old(DrainedDeletable(key)) ==>
        raised == None && instances == old(instances) && puts == old(puts) && events == old(events) && deleteCalls == old(deleteCalls)
      ensures old(DrainedDeletable(key)) ==>
        DeletionApplied(key, old(CallFor(key)), old(instances[key].hostname), reply, now, raised)
    {
      if key !in instances {
        return None;
      }
      var instance := instances[key];
      if instance.deletionTs.Some? {
        return None;
      }
      if instance.cataloged {
        return None;
      }
      if instance.url == "" {
        return None;
      }
      if instance.instanceGroupManager !in managers {
        return None;
      }
      var managerKey := instance.instanceGroupManager;
      if managerKey.parent !in revisions {
        return None;
      }
      var revision := revisions[managerKey.parent];
      if revision.project == "" {
        return None;
      }
      if managerKey.parent.parent !in templates {
        return None;
      }
      var template := templates[managerKey.parent.parent];
      if managerKey !in revision.drained {
        if managerKey.parent !in template.drained {
          return None;
        }
      }
      raised := Delete(revision, managerKey, key, instance, reply, now);
    }

    // -------------------------------------------------------------------------
    // Schedulers

    /** schedule_fetch: one fetch task per manager that has a URL. */
    method ScheduleFetch() returns (tasks: seq<Task>)
      ensures Distinct(tasks)
      ensures forall t :: t in tasks ==> t.FetchInstances?
      ensures forall mk :: FetchInstances(mk) in tasks <==> mk in managers && managers[mk].url != ""
    {
      tasks := [];
      var remaining := managers.Keys;
      while remaining != {}
        invariant remaining <= managers.Keys
        invariant Distinct(tasks)
        invariant forall t :: t in tasks ==> t.FetchInstances? && t.manager !in remaining
        invariant forall mk :: FetchInstances(mk) in tasks <==>
          mk in managers && mk !in remaining && managers[mk].url != ""
        decreases remaining
      {
        var mk :| mk in remaining;
        if managers[mk].url != "" {
          tasks := tasks + [FetchInstances(mk)];
        }
        remaining := remaining - {mk};
      }
    }

    /**
     * schedule_pending_deletion: one task per instance marked for deletion
     * and not yet deleted; so every instance delete_pending would act on is
     * among them.
     */
    method SchedulePendingDeletion() returns (tasks: seq<Task>)
      ensures Distinct(tasks)
      ensures forall t :: t in tasks ==> t.DeleteInstancePendingDeletion?
      ensures forall k :: DeleteInstancePendingDeletion(k) in tasks <==>
        k in instances && instances[k].pendingDeletion && instances[k].deletionTs.None?
      ensures forall k :: PendingDeletable(k) ==> DeleteInstancePendingDeletion(k) in tasks
    {
      tasks := [];
      var remaining := instances.Keys;
      while remaining != {}
        invariant remaining <= instances.Keys
        invariant Distinct(tasks)
        invariant forall t :: t in tasks ==> t.DeleteInstancePendingDeletion? && t.instance !in remaining
        invariant forall k :: DeleteInstancePendingDeletion(k) in tasks <==>
          k in instances && k !in remaining && instances[k].pendingDeletion && instances[k].deletionTs.None?
        decreases remaining
      {
        var k :| k in remaining;
        if instances[k].pendingDeletion && instances[k].deletionTs.None? {
          tasks := tasks + [DeleteInstancePendingDeletion(k)];
        }
        remaining := remaining - {k};
      }
    }

    /** `k` is listed by drained manager `mk` and is an existing, uncataloged, undeleted instance. */
    predicate DrainedCandidate(mk: ManagerKey, k: InstanceKey)
      reads this
    {
      && mk in managers
      && k in managers[mk].instances
      && k in instances
      && !instances[k].cataloged
      && instances[k].deletionTs.None?
    }

    /**
     * schedule_drained_deletion: for each drained manager that exists, a
     * task per listed instance that exists, is not cataloged and is not yet
     * deleted. `drained` is what the drained-manager query returns.
     */
    method ScheduleDrainedDeletion(drained: set<ManagerKey>) returns (tasks: seq<Task>)
      ensures forall t :: t in tasks ==> t.DeleteDrainedInstance?
      ensures forall k :: DeleteDrainedInstance(k) in tasks <==> exists mk :: mk in drained && DrainedCandidate(mk, k)
    {
      tasks := [];
      var remaining := drained;
      while remaining != {}
        invariant remaining <= drained
        invariant forall t :: t in tasks ==> t.DeleteDrainedInstance?
        invariant forall k :: DeleteDrainedInstance(k) in tasks <==>
          exists mk :: mk in drained && mk !in remaining && DrainedCandidate(mk, k)
        decreases remaining
      {
        var mk :| mk in remaining;
        if mk in managers {
          var listed := managers[mk].instances;
          ghost var before := tasks;
          while listed != {}
            invariant listed <= managers[mk].instances
            invariant forall t :: t in tasks ==> t.DeleteDrainedInstance?
            invariant forall k :: DeleteDrainedInstance(k) in tasks <==>
              DeleteDrainedInstance(k) in before || (k !in listed && DrainedCandidate(mk, k))
            decreases listed
          {
            var k :| k in listed;
            if k in instances && !instances[k].cataloged && instances[k].deletionTs.None? {
              tasks := tasks + [DeleteDrainedInstance(k)];
            }
            listed := listed - {k};
          }
        }
        remaining := remaining - {mk};
      }
    }
  }
}
