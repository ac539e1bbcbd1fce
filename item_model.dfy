/** src/models/Item.js: the Item record, its required fields and defaults, the validation
    Mongoose runs on create and on validated updates, how an update merges into a record, and
    the `createdAt` ordering that the list queries sort by. */
module ItemModel {
  import opened Common
  import opened ErrorHandler

  /** A stored item. `createdAt`/`updatedAt` are the `timestamps: true` fields. */
  datatype Item = Item(
    id: Id,
    title: string,
    description: string,
    location: string,
    lost: bool,
    dateReported: nat,
    reportedBy: Id,
    dateClaimed: Option<nat>,
    claimedBy: Option<Id>,
    claimConfirmed: Option<bool>,
    createdAt: nat,
    updatedAt: nat)

  /** The schema paths a request body may carry that the model follows, each possibly absent;
      a client-chosen `_id` is a separate argument of creation, and `createdAt` and `updatedAt`
      are always the time of the write. */
  datatype ItemBody = ItemBody(
    title: Option<string>,
    description: Option<string>,
    location: Option<string>,
    lost: Option<bool>,
    dateReported: Option<nat>,
    reportedBy: Option<Id>,
    dateClaimed: Option<nat>,
    claimedBy: Option<Id>,
    claimConfirmed: Option<bool>)

  const TitleRequired := "Please provide an item title"
  const DescriptionRequired := "Please provide an item description"
  const LocationRequired := "Please enter the location where the item was lost"
  const ReportedByRequired := "Path `reportedBy` is required."
  const CreateSummary := "Item validation failed"
  const UpdateSummary := "Validation failed"

  /** A record the schema accepts: the three required strings are non-empty. (`lost`,
      `dateReported` and `reportedBy` are always present in this representation, and
      `dateClaimed`, `claimedBy`, `claimConfirmed` are optional.) */
  predicate WellFormed(item: Item) {
    item.title != "" && item.description != "" && item.location != ""
  }

  /** Document validation on `Item.create`: a required string that is missing or empty fails,
      and so does a missing `reportedBy`. */
  function CreateFailures(body: ItemBody): seq<FieldFailure> {
    (if !Truthy(body.title) then [FieldFailure("title", TitleRequired)] else [])
    + (if !Truthy(body.description) then [FieldFailure("description", DescriptionRequired)] else [])
    + (if !Truthy(body.location) then [FieldFailure("location", LocationRequired)] else [])
    + (if body.reportedBy.None? then [FieldFailure("reportedBy", ReportedByRequired)] else [])
  }

  /** Update validators (`runValidators: true`) look only at the paths the update sets, so a
      required string fails only when it is set to "". */
  function UpdateFailures(body: ItemBody): seq<FieldFailure> {
    (if body.title == Some("") then [FieldFailure("title", TitleRequired)] else [])
    + (if body.description == Some("") then [FieldFailure("description", DescriptionRequired)] else [])
    + (if body.location == Some("") then [FieldFailure("location", LocationRequired)] else [])
  }

  /** The record `Item.create(body)` stores: body fields where given, otherwise the defaults:
      `lost` true and `dateReported` the value `Date.now()` had when the schema was built. */
  function NewItem(id: Id, body: ItemBody, now: nat, dateReportedDefault: nat): Item {
    Item(id,
         body.title.GetOr(""), body.description.GetOr(""), body.location.GetOr(""),
         body.lost.GetOr(true),
         body.dateReported.GetOr(dateReportedDefault),
         body.reportedBy.GetOr(0),
         body.dateClaimed, body.claimedBy, body.claimConfirmed,
         now, now)
  }

  /** `findOneAndUpdate(filter, body, { new: true })`: every field the body sets replaces the
      stored one; the id and `createdAt` stay and `updatedAt` becomes the time of the write. */
  function Merge(item: Item, body: ItemBody, now: nat): Item {
    Item(item.id,
         body.title.GetOr(item.title),
         body.description.GetOr(item.description),
         body.location.GetOr(item.location),
         body.lost.GetOr(item.lost),
         body.dateReported.GetOr(item.dateReported),
         body.reportedBy.GetOr(item.reportedBy),
         if body.dateClaimed.Some? then body.dateClaimed else item.dateClaimed,
         if body.claimedBy.Some? then body.claimedBy else item.claimedBy,
         if body.claimConfirmed.Some? then body.claimConfirmed else item.claimConfirmed,
         item.createdAt,
         now)
  }

  /** Creation validates exactly the records the schema accepts. */
  lemma CreateValidationMeaning(id: Id, body: ItemBody, now: nat, dateReportedDefault: nat)
    ensures CreateFailures(body) == [] <==>
              body.reportedBy.Some? && WellFormed(NewItem(id, body, now, dateReportedDefault))
    ensures CreateFailures(body) == [] ==>
              var item := NewItem(id, body, now, dateReportedDefault);
              && item.reportedBy == body.reportedBy.value
              && (body.lost.None? ==> item.lost)
              && (body.dateReported.None? ==> item.dateReported == dateReportedDefault)
              && item.createdAt == now
  {
    var t := if !Truthy(body.title) then [FieldFailure("title", TitleRequired)] else [];
    var d := if !Truthy(body.description) then [FieldFailure("description", DescriptionRequired)] else [];
    var l := if !Truthy(body.location) then [FieldFailure("location", LocationRequired)] else [];
    var r := if body.reportedBy.None? then [FieldFailure("reportedBy", ReportedByRequired)] else [];
    assert CreateFailures(body) == t + d + l + r;
    assert |CreateFailures(body)| == |t| + |d| + |l| + |r|;
  }

  /** A validated update keeps a record well-formed. */
  lemma UpdateKeepsWellFormed(item: Item, body: ItemBody, now: nat)
    requires WellFormed(item) && UpdateFailures(body) == []
    ensures WellFormed(Merge(item, body, now))
  {
    assert body.title != Some("") && body.description != Some("") && body.location != Some("");
  }

  /** The body `claimItem` writes: the caller's body with `lost`, `claimedBy` and
      `dateClaimed` forced. */
  function ClaimBody(body: ItemBody, caller: Id, now: nat): ItemBody {
    body.(lost := Some(false), claimedBy := Some(caller), dateClaimed := Some(now))
  }

  /** The body `confirmClaim` writes: the caller's body with `claimConfirmed` forced. */
  function ConfirmBody(body: ItemBody): ItemBody {
    body.(claimConfirmed := Some(true))
  }

  /** The stages of the claim lifecycle, as the stored flags show them. */
  datatype Phase = Reported | Claimed | Confirmed

  function PhaseOf(item: Item): Phase {
    if item.claimConfirmed == Some(true) then Confirmed
    else if item.claimedBy.Some? then Claimed
    else Reported
  }

  /** A claim by anyone makes that caller the claimer, whatever claim was there before, and
      marks the item found; it does not clear an earlier confirmation. */
  lemma ClaimOverwrites(item: Item, body: ItemBody, caller: Id, now: nat)
    ensures var claimed := Merge(item, ClaimBody(body, caller, now), now);
            && claimed.claimedBy == Some(caller) && !claimed.lost && claimed.dateClaimed == Some(now)
            && (body.claimConfirmed.None? ==> claimed.claimConfirmed == item.claimConfirmed)
            && PhaseOf(claimed) != Reported
  {
  }

  /** The claim body is the caller's own apart from the three forced fields, so a claimer who
      sends `claimConfirmed: true` confirms their own claim in the same write. */
  lemma ClaimCanConfirmItself(item: Item, body: ItemBody, caller: Id, now: nat)
    requires body.claimConfirmed == Some(true)
    ensures var claimed := Merge(item, ClaimBody(body, caller, now), now);
            && claimed.claimedBy == Some(caller) && claimed.claimConfirmed == Some(true)
            && PhaseOf(claimed) == Confirmed
  {
  }

  /** A confirmation sets the flag whether or not anyone has claimed the item. */
  lemma ConfirmIgnoresClaim(item: Item, body: ItemBody, now: nat)
    ensures var confirmed := Merge(item, ConfirmBody(body), now);
            && PhaseOf(confirmed) == Confirmed
            && (body.claimedBy.None? ==> confirmed.claimedBy == item.claimedBy)
  {
  }

  /** The `createdAt` order, ties broken by id. Counter ids grow with insertion, but an `_id`
      chosen by the client need not, so ties do not always follow insertion order. */
  predicate Precedes(a: Item, b: Item) {
    a.createdAt < b.createdAt || (a.createdAt == b.createdAt && a.id <= b.id)
  }

  /** Each record is stored under its own id. */
  predicate KeyedById(m: map<Id, Item>) {
    forall k :: k in m ==> m[k].id == k
  }

  predicate IsFirst(m: map<Id, Item>, k: Id) {
    k in m && forall j :: j in m ==> Precedes(m[k], m[j])
  }

  lemma {:induction false} FirstExists(m: map<Id, Item>)
    requires KeyedById(m) && m != map[]
    ensures exists k :: IsFirst(m, k)
    decreases m.Keys
  {
    var k0 :| k0 in m;
    var rest := m - {k0};
    assert forall j :: j in m && j != k0 ==> j in rest && rest[j] == m[j];
    if rest == map[] {
      forall j | j in m ensures Precedes(m[k0], m[j]) {
        assert j == k0;
      }
      assert IsFirst(m, k0);
    } else {
      FirstExists(rest);
      var k1 :| IsFirst(rest, k1);
      if Precedes(m[k0], m[k1]) {
        forall j | j in m ensures Precedes(m[k0], m[j]) {
          if j != k0 { assert Precedes(rest[k1], rest[j]); }
        }
        assert IsFirst(m, k0);
      } else {
        forall j | j in m ensures Precedes(m[k1], m[j]) {
          if j != k0 { assert Precedes(rest[k1], rest[j]); }
        }
        assert IsFirst(m, k1);
      }
    }
  }

  /** Every entry of `r` is a record of `m`. */
  predicate ListsOnly(r: seq<Item>, m: map<Id, Item>) {
    forall i :: 0 <= i < |r| ==> r[i].id in m && m[r[i].id] == r[i]
  }

  /** Every record of `m` is an entry of `r`. */
  predicate ListsAll(r: seq<Item>, m: map<Id, Item>) {
    forall k :: k in m ==> m[k] in r
  }

  /** `r` is in `createdAt` order and names each id at most once. */
  predicate InOrder(r: seq<Item>) {
    forall i, j :: 0 <= i < j < |r| ==> Precedes(r[i], r[j]) && r[i].id != r[j].id
  }

  /** `r` lists every record of `m` exactly once, in `createdAt` order. */
  predicate Enumerates(r: seq<Item>, m: map<Id, Item>) {
    ListsOnly(r, m) && ListsAll(r, m) && InOrder(r)
  }

  lemma PrependListsOnly(m: map<Id, Item>, k: Id, rest: seq<Item>)
    requires KeyedById(m) && k in m && ListsOnly(rest, m - {k})
    ensures ListsOnly([m[k]] + rest, m)
  {
    var r := [m[k]] + rest;
    forall i | 0 <= i < |r| ensures r[i].id in m && m[r[i].id] == r[i] {
      if i > 0 { assert r[i] == rest[i - 1]; }
    }
  }

  lemma PrependListsAll(m: map<Id, Item>, k: Id, rest: seq<Item>)
    requires k in m && ListsAll(rest, m - {k})
    ensures ListsAll([m[k]] + rest, m)
  {
    var r := [m[k]] + rest;
    var others := m - {k};
    forall j | j in m ensures m[j] in r {
      if j != k {
        assert j in others && others[j] == m[j];
        var i :| 0 <= i < |rest| && rest[i] == m[j];
        assert r[i + 1] == m[j];
      }
    }
  }

  lemma PrependInOrder(m: map<Id, Item>, k: Id, rest: seq<Item>)
    requires KeyedById(m) && IsFirst(m, k) && ListsOnly(rest, m - {k}) && InOrder(rest)
    ensures InOrder([m[k]] + rest)
  {
    var r := [m[k]] + rest;
    var others := m - {k};
    forall i, j | 0 <= i < j < |r| ensures Precedes(r[i], r[j]) && r[i].id != r[j].id {
      assert r[j] == rest[j - 1];
      if i == 0 {
        assert rest[j - 1].id in others;
      } else {
        assert r[i] == rest[i - 1];
      }
    }
  }

  /** Putting the first record in front of an enumeration of the others enumerates them all. */
  lemma PrependFirst(m: map<Id, Item>, k: Id, rest: seq<Item>)
    requires KeyedById(m) && IsFirst(m, k) && Enumerates(rest, m - {k})
    ensures Enumerates([m[k]] + rest, m)
  {
    PrependListsOnly(m, k, rest);
    PrependListsAll(m, k, rest);
    PrependInOrder(m, k, rest);
  }

  /** `find(filter).sort("createdAt")` over the matched records: every record exactly once,
      in `createdAt` order. */
  function ByCreation(m: map<Id, Item>): (r: seq<Item>)
    requires KeyedById(m)
    ensures Enumerates(r, m)
    decreases m.Keys
  {
    if m == map[] then []
    else
      FirstExists(m);
      var k :| IsFirst(m, k);
      var rest := ByCreation(m - {k});
      PrependFirst(m, k, rest);
      [m[k]] + rest
  }

  /** The records `Item.find({ reportedBy: userId })` matches. */
  function ReportedBy(m: map<Id, Item>, userId: Id): map<Id, Item> {
    map k | k in m && m[k].reportedBy == userId :: m[k]
  }

  /** The entries of a listing reported by `userId`, in the listing's order. */
  function OfReporter(s: seq<Item>, userId: Id): seq<Item>
    decreases |s|
  {
    if s == [] then []
    else (if s[0].reportedBy == userId then [s[0]] else []) + OfReporter(s[1..], userId)
  }

  lemma {:induction false} OfReporterMembers(s: seq<Item>, userId: Id)
    ensures forall x :: x in OfReporter(s, userId) <==> x in s && x.reportedBy == userId
    decreases |s|
  {
    if s != [] {
      OfReporterMembers(s[1..], userId);
      assert s == [s[0]] + s[1..];
    }
  }

  lemma {:induction false} OfReporterInOrder(s: seq<Item>, userId: Id)
    requires InOrder(s)
    ensures InOrder(OfReporter(s, userId))
    decreases |s|
  {
    if s != [] {
      var tail := OfReporter(s[1..], userId);
      OfReporterInOrder(s[1..], userId);
      OfReporterMembers(s[1..], userId);
      if s[0].reportedBy == userId {
        var r := [s[0]] + tail;
        forall i, j | 0 <= i < j < |r| ensures Precedes(r[i], r[j]) && r[i].id != r[j].id {
          assert r[j] == tail[j - 1] && r[j] in s[1..];
          var n :| 0 <= n < |s[1..]| && s[1..][n] == r[j];
          if i == 0 {
            assert s[n + 1] == r[j];
          } else {
            assert r[i] == tail[i - 1];
          }
        }
      }
    }
  }

  /** Dropping the head of an enumeration enumerates the rest of the map. */
  lemma EnumerationTail(a: seq<Item>, m: map<Id, Item>)
    requires KeyedById(m) && Enumerates(a, m) && a != []
    ensures Enumerates(a[1..], m - {a[0].id})
  {
    var rest := m - {a[0].id};
    var t := a[1..];
    forall i | 0 <= i < |t| ensures t[i].id in rest && rest[t[i].id] == t[i] {
      assert t[i] == a[i + 1];
    }
    forall k | k in rest ensures rest[k] in t {
      assert m[k] in a;
      var j :| 0 <= j < |a| && a[j] == m[k];
      assert j != 0;
      assert t[j - 1] == m[k];
    }
    forall i, j | 0 <= i < j < |t| ensures Precedes(t[i], t[j]) && t[i].id != t[j].id {
      assert t[i] == a[i + 1] && t[j] == a[j + 1];
    }
  }

  /** Two enumerations of one map are empty together and start with the same record. */
  lemma EnumerationHead(a: seq<Item>, b: seq<Item>, m: map<Id, Item>)
    requires Enumerates(a, m) && Enumerates(b, m)
    ensures a == [] <==> b == []
    ensures a != [] ==> a[0] == b[0]
  {
    if a != [] {
      assert m[a[0].id] in b;
      var x, y := a[0], b[0];
      assert m[y.id] == y && y in a;
      var i :| 0 <= i < |a| && a[i] == y;
      var j :| 0 <= j < |b| && b[j] == x;
      if i > 0 {
        assert Precedes(x, y) && x.id != y.id;
      }
    }
  }

  /** A map has only one enumeration: `createdAt` order with ids as tie-break is total. */
  lemma {:induction false} EnumerationUnique(a: seq<Item>, b: seq<Item>, m: map<Id, Item>)
    requires KeyedById(m) && Enumerates(a, m) && Enumerates(b, m)
    ensures a == b
    decreases |a|
  {
    EnumerationHead(a, b, m);
    if a != [] {
      EnumerationTail(a, m);
      EnumerationTail(b, m);
      EnumerationUnique(a[1..], b[1..], m - {a[0].id});
      assert a == [a[0]] + a[1..] && b == [b[0]] + b[1..];
    }
  }

  /** The listing of one user's items is the full listing filtered by reporter: the same
      records in the same order. */
  lemma ListingByReporter(m: map<Id, Item>, userId: Id)
    requires KeyedById(m)
    ensures ByCreation(ReportedBy(m, userId)) == OfReporter(ByCreation(m), userId)
  {
    var all := ByCreation(m);
    var mine := ReportedBy(m, userId);
    var f := OfReporter(all, userId);
    OfReporterMembers(all, userId);
    OfReporterInOrder(all, userId);
    forall i | 0 <= i < |f| ensures f[i].id in mine && mine[f[i].id] == f[i] {
      assert f[i] in f;
    }
    forall k | k in mine ensures mine[k] in f {
      assert m[k] in all;
    }
    assert Enumerates(f, mine);
    EnumerationUnique(ByCreation(mine), f, mine);
  }
}
