/** The resource handlers of the server (server/handlers/resource.go) over
    an abstract store: renewal, partial update, the sorted listing, and
    backup export and import. The database is a sequence of rows plus the
    next primary key it will hand out; whether a read or a write of the
    database succeeds is an input. */
module ResourceHandlers {
  import opened Optional
  import opened Types
  import opened ResourceModel

  datatype Status = Ok | BadRequest | NotFound | ServerError

  /** The `resources` table: its rows in storage order, and the primary key
      the next `DB.Create` assigns (an auto-increment counter). */
  datatype Store = Store(rows: seq<Resource>, nextId: nat)

  /** Primary keys are distinct and below the next key handed out. */
  predicate WellFormed(s: Store) {
    (forall i :: 0 <= i < |s.rows| ==> s.rows[i].id < s.nextId) &&
    (forall i, j :: 0 <= i < j < |s.rows| ==> s.rows[i].id != s.rows[j].id)
  }

  /** A handler's status, the resource it answers with, and the store it
      leaves behind. */
  datatype Reply = Reply(status: Status, body: Option<ResourceView>, store: Store)

  /** `DB.First(&resource, id)`: the position of the row with key `id`. */
  function Lookup(rows: seq<Resource>, id: nat): (r: Option<nat>)
    ensures r.Some? ==> r.value < |rows| && rows[r.value].id == id
    ensures r.Some? ==> forall i :: 0 <= i < r.value ==> rows[i].id != id
    ensures r.None? <==> forall i :: 0 <= i < |rows| ==> rows[i].id != id
  {
    if |rows| == 0 then None
    else if rows[0].id == id then Some(0)
    else
      match Lookup(rows[1..], id)
      case None => None
      case Some(k) => Some(k + 1)
  }

  /** In a well-formed store the row `Lookup` finds is the only one with
      that key. */
  lemma LookupUnique(s: Store, id: nat)
    requires WellFormed(s) && Lookup(s.rows, id).Some?
    ensures forall j :: 0 <= j < |s.rows| && s.rows[j].id == id ==> j == Lookup(s.rows, id).value
  {
  }

  /** Replacing a row by one with the same key keeps a store well formed. */
  lemma ReplaceKeepsWellFormed(s: Store, i: nat, r: Resource)
    requires i < |s.rows| && r.id == s.rows[i].id
    ensures WellFormed(s) ==> WellFormed(s.(rows := s.rows[i := r]))
  {
  }

  // ---------------------------------------------------------------------
  // RenewResource
  // ---------------------------------------------------------------------

  /** The JSON body of a renewal; an absent field is `None`. */
  datatype RenewRequest = RenewRequest(days: Option<int>, expireAt: Option<int>)

  /** The expiry after a renewal: an explicit timestamp wins over `days`;
      otherwise `days` days are added to the later of the current expiry
      and now. */
  function RenewedExpiry(current: Instant, req: RenewRequest, now: Instant): (e: Instant)
    requires req.days.Some? || req.expireAt.Some?
    ensures req.expireAt.Some? ==> Unix(e) == req.expireAt.value && e % NanosPerSecond == 0
    ensures req.expireAt.None? && current < now ==> e - now == req.days.value * NanosPerDay
    ensures req.expireAt.None? && now <= current ==> e - current == req.days.value * NanosPerDay
  {
    if req.expireAt.Some? then FromUnix(req.expireAt.value)
    else
      var base := if current < now then now else current;
      AddDays(base, req.days.value)
  }

  /** `RenewResource`: `req` is `None` when the body does not bind, `now`
      is the clock, `saveOk` whether `DB.Save` succeeds. */
  function RenewResource(s: Store, id: nat, req: Option<RenewRequest>, now: Instant, saveOk: bool): (r: Reply)
    ensures r.status != Ok ==> r.store == s && r.body.None?
    ensures r.status == BadRequest <==> req.None? || (req.value.days.None? && req.value.expireAt.None?)
    ensures r.status == NotFound <==> r.status != BadRequest && Lookup(s.rows, id).None?
    ensures r.status == ServerError <==> r.status != BadRequest && Lookup(s.rows, id).Some? && !saveOk
    ensures r.status == Ok ==>
              var i := Lookup(s.rows, id).value;
              var renewed := s.rows[i].(expireAt := RenewedExpiry(s.rows[i].expireAt, req.value, now));
              r.store == s.(rows := s.rows[i := renewed]) && r.body == Some(ToResponse(renewed, now))
    ensures WellFormed(s) ==> WellFormed(r.store)
  {
    if req.None? || (req.value.days.None? && req.value.expireAt.None?) then Reply(BadRequest, None, s)
    else
      match Lookup(s.rows, id)
      case None => Reply(NotFound, None, s)
      case Some(i) =>
        var renewed := s.rows[i].(expireAt := RenewedExpiry(s.rows[i].expireAt, req.value, now));
        ReplaceKeepsWellFormed(s, i, renewed);
        if saveOk then Reply(Ok, Some(ToResponse(renewed, now)), s.(rows := s.rows[i := renewed]))
        else Reply(ServerError, None, s)
  }

  /** A timestamp in the request decides the expiry whatever `days` says. */
  lemma ExplicitExpiryWins(current: Instant, days: Option<int>, sec: int, now: Instant)
    ensures RenewedExpiry(current, RenewRequest(days, Some(sec)), now) == FromUnix(sec)
  {
    var e := RenewedExpiry(current, RenewRequest(days, Some(sec)), now);
    assert e == e / NanosPerSecond * NanosPerSecond;
  }

  /** Renewing by a non-negative number of days never moves the expiry
      into the past nor before the current expiry. */
  lemma RenewalNeverShortens(current: Instant, days: int, now: Instant)
    requires days >= 0
    ensures RenewedExpiry(current, RenewRequest(Some(days), None), now) >= now
    ensures RenewedExpiry(current, RenewRequest(Some(days), None), now) >= current
  {
    var e := RenewedExpiry(current, RenewRequest(Some(days), None), now);
    assert days * NanosPerDay >= 0;
  }

  /** More days never give an earlier expiry. */
  lemma RenewalMonotoneInDays(current: Instant, d1: int, d2: int, now: Instant)
    requires d1 <= d2
    ensures RenewedExpiry(current, RenewRequest(Some(d1), None), now) <= RenewedExpiry(current, RenewRequest(Some(d2), None), now)
  {
    assert d1 * NanosPerDay <= d2 * NanosPerDay;
  }

  /** A successful renewal changes the expiry of the one row with the given
      key and nothing else: no other row, no other field, not the next key. */
  lemma RenewTouchesOnlyExpiry(s: Store, id: nat, req: Option<RenewRequest>, now: Instant, saveOk: bool)
    requires RenewResource(s, id, req, now, saveOk).status == Ok
    ensures var t := RenewResource(s, id, req, now, saveOk).store;
            |t.rows| == |s.rows| && t.nextId == s.nextId &&
            forall j :: 0 <= j < |s.rows| ==>
              t.rows[j].id == s.rows[j].id && t.rows[j].name == s.rows[j].name &&
              t.rows[j].groupName == s.rows[j].groupName && t.rows[j].createdAt == s.rows[j].createdAt &&
              (s.rows[j].id != id ==> t.rows[j] == s.rows[j])
  {
  }

  // ---------------------------------------------------------------------
  // UpdateResource
  // ---------------------------------------------------------------------

  /** The JSON body of an update; an absent field is `None`. */
  datatype UpdateRequest = UpdateRequest(name: Option<string>, group: Option<string>, expireAt: Option<int>)

  /** The fields the request supplies replace the stored ones. */
  function ApplyUpdate(r: Resource, req: UpdateRequest): (u: Resource)
    ensures u.id == r.id && u.createdAt == r.createdAt
    ensures req.name.None? ==> u.name == r.name
    ensures req.name.Some? ==> u.name == req.name.value
    ensures req.group.None? ==> u.groupName == r.groupName
    ensures req.group.Some? ==> u.groupName == req.group.value
    ensures req.expireAt.None? ==> u.expireAt == r.expireAt
    ensures req.expireAt.Some? ==> Unix(u.expireAt) == req.expireAt.value && u.expireAt % NanosPerSecond == 0
  {
    Resource(
      r.id,
      if req.name.Some? then req.name.value else r.name,
      if req.group.Some? then req.group.value else r.groupName,
      if req.expireAt.Some? then FromUnix(req.expireAt.value) else r.expireAt,
      r.createdAt)
  }

  /** An update with no fields leaves the resource as it is, and applying
      the same update twice is applying it once. */
  lemma UpdateIdempotent(r: Resource, req: UpdateRequest)
    ensures ApplyUpdate(r, UpdateRequest(None, None, None)) == r
    ensures ApplyUpdate(ApplyUpdate(r, req), req) == ApplyUpdate(r, req)
  {
  }

  /** `UpdateResource`: `req` is `None` when the body does not bind. */
  function UpdateResource(s: Store, id: nat, req: Option<UpdateRequest>, now: Instant, saveOk: bool): (r: Reply)
    ensures r.status != Ok ==> r.store == s && r.body.None?
    ensures r.status == BadRequest <==> req.None?
    ensures r.status == NotFound <==> req.Some? && Lookup(s.rows, id).None?
    ensures r.status == ServerError <==> req.Some? && Lookup(s.rows, id).Some? && !saveOk
    ensures r.status == Ok ==>
              var i := Lookup(s.rows, id).value;
              r.store == s.(rows := s.rows[i := ApplyUpdate(s.rows[i], req.value)]) &&
              r.body == Some(ToResponse(ApplyUpdate(s.rows[i], req.value), now))
    ensures WellFormed(s) ==> WellFormed(r.store)
  {
    if req.None? then Reply(BadRequest, None, s)
    else
      match Lookup(s.rows, id)
      case None => Reply(NotFound, None, s)
      case Some(i) =>
        var updated := ApplyUpdate(s.rows[i], req.value);
        ReplaceKeepsWellFormed(s, i, updated);
        if saveOk then Reply(Ok, Some(ToResponse(updated, now)), s.(rows := s.rows[i := updated]))
        else Reply(ServerError, None, s)
  }

  // ---------------------------------------------------------------------
  // GetResources
  // ---------------------------------------------------------------------

  /** Ascending by expiry: the earliest to expire first. */
  predicate SortedByExpiry(s: seq<ResourceView>) {
    forall i, j :: 0 <= i < j < |s| ==> s[i].expireAt <= s[j].expireAt
  }

  /** Inserts `x` before the first element that expires no earlier. */
  function Insert(x: ResourceView, s: seq<ResourceView>): (r: seq<ResourceView>)
    requires SortedByExpiry(s)
    ensures SortedByExpiry(r)
    ensures multiset(r) == multiset(s) + multiset{x}
    ensures |r| == |s| + 1
    ensures forall k :: 0 <= k < |r| ==> r[k] == x || r[k] in s
  {
    if |s| == 0 then [x]
    else if x.expireAt <= s[0].expireAt then [x] + s
    else
      var rest := Insert(x, s[1..]);
      assert s == [s[0]] + s[1..];
      InsertBehindHead(x, s, rest);
      [s[0]] + rest
  }

  /** The head of `s` may precede anything drawn from `s` or from an `x`
      that expires after it. */
  lemma InsertBehindHead(x: ResourceView, s: seq<ResourceView>, rest: seq<ResourceView>)
    requires |s| > 0 && SortedByExpiry(s) && SortedByExpiry(rest)
    requires s[0].expireAt < x.expireAt
    requires forall k :: 0 <= k < |rest| ==> rest[k] == x || rest[k] in s
    ensures SortedByExpiry([s[0]] + rest)
  {
    forall k | 0 <= k < |rest|
      ensures s[0].expireAt <= rest[k].expireAt
    {
      if rest[k] != x {
        var j :| 0 <= j < |s| && s[j] == rest[k];
      }
    }
  }

  /** Orders the responses by expiry. `sort.Slice` is not stable and
      promises only a sorted permutation; this is one such order. */
  function SortByExpiry(s: seq<ResourceView>): (r: seq<ResourceView>)
    ensures SortedByExpiry(r)
    ensures multiset(r) == multiset(s)
    ensures |r| == |s|
  {
    if |s| == 0 then []
    else
      assert s == s[..|s| - 1] + [s[|s| - 1]];
      Insert(s[|s| - 1], SortByExpiry(s[..|s| - 1]))
  }

  /** The responses in storage order. */
  function Responses(rows: seq<Resource>, now: Instant): (v: seq<ResourceView>)
    ensures |v| == |rows|
    ensures forall i :: 0 <= i < |rows| ==> v[i] == ToResponse(rows[i], now)
  {
    if |rows| == 0 then [] else [ToResponse(rows[0], now)] + Responses(rows[1..], now)
  }

  /** Two sequences with the same multiset hold the same elements. */
  lemma SameMultisetSameMembers(a: seq<ResourceView>, b: seq<ResourceView>)
    requires multiset(a) == multiset(b)
    ensures forall r :: r in a <==> r in b
  {
    forall r ensures r in a <==> r in b {
      assert r in a <==> r in multiset(a);
      assert r in b <==> r in multiset(b);
    }
  }

  /** `GetResources`: every stored resource once, as a response, earliest
      expiry first. `findOk` says whether `DB.Find` succeeds; `None` is the
      500 reply to a failed read. */
  function GetResources(s: Store, now: Instant, findOk: bool): (v: Option<seq<ResourceView>>)
    ensures v.None? <==> !findOk
    ensures v.Some? ==> SortedByExpiry(v.value)
    ensures v.Some? ==> multiset(v.value) == multiset(Responses(s.rows, now))
    ensures v.Some? ==> forall r :: r in v.value <==> exists i :: 0 <= i < |s.rows| && r == ToResponse(s.rows[i], now)
  {
    if !findOk then None
    else
      var w := Responses(s.rows, now);
      var v := SortByExpiry(w);
      SameMultisetSameMembers(v, w);
      Some(v)
  }

  // ---------------------------------------------------------------------
  // ExportBackup and ImportBackup
  // ---------------------------------------------------------------------

  /** One backup entry; both instants in Unix seconds. */
  datatype BackupResource = BackupResource(name: string, group: string, expireAt: int, createdAt: int)

  datatype BackupData = BackupData(version: string, exportAt: int, resources: seq<BackupResource>)

  const BackupVersion: string := "1.0"

  /** The backup entry of one stored resource. */
  function ToBackup(r: Resource): (b: BackupResource)
    ensures b.name == r.name && b.group == r.groupName
    ensures FromUnix(b.expireAt) <= r.expireAt < FromUnix(b.expireAt) + NanosPerSecond
    ensures FromUnix(b.createdAt) <= r.createdAt < FromUnix(b.createdAt) + NanosPerSecond
  {
    BackupResource(r.name, r.groupName, Unix(r.expireAt), Unix(r.createdAt))
  }

  /** `ExportBackup`: one entry per stored resource, in storage order.
      `findOk` says whether `DB.Find` succeeds; `None` is the 500 reply to
      a failed read. */
  function ExportBackup(s: Store, now: Instant, findOk: bool): (b: Option<BackupData>)
    ensures b.None? <==> !findOk
    ensures b.Some? ==> b.value.version == BackupVersion
    ensures b.Some? ==> FromUnix(b.value.exportAt) <= now < FromUnix(b.value.exportAt) + NanosPerSecond
    ensures b.Some? ==> |b.value.resources| == |s.rows|
    ensures b.Some? ==> forall i :: 0 <= i < |s.rows| ==> b.value.resources[i] == ToBackup(s.rows[i])
  {
    if !findOk then None
    else Some(BackupData(BackupVersion, Unix(now), seq(|s.rows|, i requires 0 <= i < |s.rows| => ToBackup(s.rows[i]))))
  }

  datatype ImportMode = Overwrite | Append

  /** The mode field: only `overwrite` and `append` are accepted. */
  function ParseMode(mode: string): (m: Option<ImportMode>)
    ensures m == Some(Overwrite) <==> mode == "overwrite"
    ensures m == Some(Append) <==> mode == "append"
  {
    if mode == "overwrite" then Some(Overwrite)
    else if mode == "append" then Some(Append)
    else None
  }

  /** The row `Create` stores for a backup entry given key `id`: a
      creation time of zero or less is replaced by the clock. */
  function Restored(b: BackupResource, id: nat, now: Instant): (r: Resource)
    ensures r.id == id && r.name == b.name && r.groupName == b.group
    ensures r.expireAt == FromUnix(b.expireAt)
    ensures b.createdAt > 0 ==> r.createdAt == FromUnix(b.createdAt)
    ensures b.createdAt <= 0 ==> r.createdAt == now
  {
    Resource(id, b.name, b.group, FromUnix(b.expireAt), if b.createdAt > 0 then FromUnix(b.createdAt) else now)
  }

  /** The rows created for the first `n` entries, keys counted from `first`. */
  function RestoredRows(bs: seq<BackupResource>, n: nat, first: nat, now: Instant): (rows: seq<Resource>)
    requires n <= |bs|
    ensures |rows| == n
    ensures forall i :: 0 <= i < n ==> rows[i] == Restored(bs[i], first + i, now)
  {
    seq(n, i requires 0 <= i < n => Restored(bs[i], first + i, now))
  }

  /** Restoring an entry and exporting it again gives the entry back, as
      long as its creation time is positive. */
  lemma BackupRoundTrip(b: BackupResource, id: nat, now: Instant)
    requires b.createdAt > 0
    ensures ToBackup(Restored(b, id, now)) == b
  {
    var r := Restored(b, id, now);
    assert Unix(r.expireAt) == b.expireAt;
    assert Unix(r.createdAt) == b.createdAt;
  }

  /** Exporting a resource and restoring the entry gives the resource back
      under its new key, when both instants are whole seconds and it was
      created after the epoch. */
  lemma RestoreRoundTrip(r: Resource, id: nat, now: Instant)
    requires r.expireAt % NanosPerSecond == 0 && r.createdAt % NanosPerSecond == 0
    requires r.createdAt > 0
    ensures Restored(ToBackup(r), id, now) == r.(id := id)
  {
    FromUnixOfUnix(r.expireAt);
    FromUnixOfUnix(r.createdAt);
  }

  /** Exporting a store and restoring the backup into an empty one yields
      rows that export to the same entries, for resources created after
      the epoch. */
  lemma ExportRestoreRoundTrip(s: Store, exportedAt: Instant, first: nat, now: Instant)
    requires forall i :: 0 <= i < |s.rows| ==> Unix(s.rows[i].createdAt) > 0
    ensures var b := ExportBackup(s, exportedAt, true).value.resources;
            var rows := RestoredRows(b, |b|, first, now);
            |rows| == |s.rows| &&
            forall i :: 0 <= i < |rows| ==> ToBackup(rows[i]) == ToBackup(s.rows[i])
  {
    var b := ExportBackup(s, exportedAt, true).value.resources;
    forall i | 0 <= i < |s.rows|
      ensures ToBackup(Restored(b[i], first + i, now)) == ToBackup(s.rows[i])
    {
      BackupRoundTrip(b[i], first + i, now);
    }
  }

  /** Appending a row under the next key, and moving the counter past it,
      keeps a store well formed. */
  lemma AppendKeepsWellFormed(t: Store, r: Resource)
    requires r.id == t.nextId
    ensures WellFormed(t) ==> WellFormed(Store(t.rows + [r], t.nextId + 1))
  {
  }

  datatype ImportResult =
    | InvalidMode
    | ClearFailed
    | CreateFailed(name: string, imported: nat)
    | Imported(imported: nat, mode: ImportMode)

  /** `ImportBackup`. `clearOk` says whether the overwrite's `DELETE`
      succeeds; `failAt` is the index of the first entry whose `Create`
      fails, if any. */
  method ImportBackup(s: Store, mode: string, data: BackupData, now: Instant, clearOk: bool, failAt: Option<nat>)
    returns (result: ImportResult, t: Store)
    ensures ParseMode(mode).None? <==> result == InvalidMode
    ensures result == InvalidMode || result == ClearFailed ==> t == s
    ensures result == ClearFailed <==> mode == "overwrite" && !clearOk
    ensures result.CreateFailed? <==>
              ParseMode(mode).Some? && (mode == "append" || clearOk) && failAt.Some? && failAt.value < |data.resources|
    ensures result.CreateFailed? ==>
              result.imported == failAt.value && result.name == data.resources[failAt.value].name
    ensures result.Imported? ==> result.imported == |data.resources| && Some(result.mode) == ParseMode(mode)
    ensures result.CreateFailed? || result.Imported? ==>
              var kept := if mode == "overwrite" then [] else s.rows;
              t.rows == kept + RestoredRows(data.resources, result.imported, s.nextId, now) &&
              t.nextId == s.nextId + result.imported
    ensures WellFormed(s) ==> WellFormed(t)
  {
    var m := ParseMode(mode);
    if m.None? {
      return InvalidMode, s;
    }
    t := s;
    if m.value == Overwrite {
      if !clearOk {
        return ClearFailed, s;
      }
      t := Store([], s.nextId);
    }
    ghost var kept := t.rows;
    var imported := 0;
    for k := 0 to |data.resources|
      invariant imported == k
      invariant failAt.Some? ==> k <= failAt.value
      invariant t.rows == kept + RestoredRows(data.resources, k, s.nextId, now)
      invariant t.nextId == s.nextId + k
      invariant WellFormed(s) ==> WellFormed(t)
    {
      var b := data.resources[k];
      if failAt == Some(k) {
        return CreateFailed(b.name, imported), t;
      }
      AppendKeepsWellFormed(t, Restored(b, t.nextId, now));
      t := Store(t.rows + [Restored(b, t.nextId, now)], t.nextId + 1);
      imported := imported + 1;
    }
    result := Imported(imported, m.value);
  }
}
