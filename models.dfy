/** The `Url` record and its table (api/models.py). A record keeps its
    creation time and its time to live; its expiry instant is their sum. */
module Models {
  import opened Consts

  datatype Url = Url(short: string, long: string, createdAt: int, ttl: int, hits: nat)

  /** The expiry instant of a record. */
  function Expiry(u: Url): int {
    u.createdAt + u.ttl
  }

  /** `get_default_expiry_time()` evaluated at `now`. */
  function GetDefaultExpiryTime(now: int): (t: int)
    ensures t - now == Days(DEFAULT_EXPIRATION_PERIOD_DAYS) && t > now
  {
    now + Days(DEFAULT_EXPIRATION_PERIOD_DAYS)
  }

  /** A new row `Url(short=..., long=...)` saved at `now`: every other column
      takes its default. */
  function NewUrl(short: string, long: string, now: int): (u: Url)
    ensures u.short == short && u.long == long && u.createdAt == now
    ensures u.hits == 0
    ensures Expiry(u) == GetDefaultExpiryTime(now)
  {
    Url(short, long, now, Days(DEFAULT_EXPIRATION_PERIOD_DAYS), 0)
  }

  /** `url.is_expired` evaluated at `now`. */
  predicate IsExpired(u: Url, now: int) {
    now > Expiry(u)
  }

  /** The `self.hits += 1` of `increment_hits`. */
  function WithHit(u: Url): (v: Url)
    ensures v.hits == u.hits + 1
    ensures v.short == u.short && v.long == u.long && v.createdAt == u.createdAt && v.ttl == u.ttl
  {
    u.(hits := u.hits + 1)
  }

  /** The comparison is strict: a record is still live at its exact expiry
      instant, expired from the next instant on, and stays expired. */
  lemma ExpiryIsStrict(u: Url, now: int, later: int)
    ensures !IsExpired(u, Expiry(u)) && IsExpired(u, Expiry(u) + 1)
    ensures IsExpired(u, now) && now <= later ==> IsExpired(u, later)
  {
  }

  /** A record created at `now` is live from `now` until its default expiry. */
  lemma FreshUrlIsLive(short: string, long: string, now: int, t: int)
    requires now <= t <= GetDefaultExpiryTime(now)
    ensures !IsExpired(NewUrl(short, long, now), t)
  {
  }

  /** A record is selected by a sweep with cutoff `cutoff` when its expiry
      instant lies strictly before it. */
  predicate ExpiresBefore(u: Url, cutoff: int) {
    Expiry(u) < cutoff
  }

  /** The distinct members of a sequence of keys. */
  function Elements(keys: seq<string>): set<string> {
    set k | k in keys
  }

  /** The keys of `records` whose records expire before `cutoff`. */
  function ExpiredKeys(records: map<string, Url>, cutoff: int): set<string> {
    set k | k in records && ExpiresBefore(records[k], cutoff)
  }

  /** `keys` is a correct answer to the query "records expiring before
      `cutoff`, ordered by `created_at`": exactly the selected keys, each
      once (as many positions as distinct keys), in creation order. */
  predicate IsExpiryQuery(records: map<string, Url>, cutoff: int, keys: seq<string>) {
    && Elements(keys) == ExpiredKeys(records, cutoff)
    && |Elements(keys)| == |keys|
    && OrderedByCreation(records, keys)
  }

  /** Each key names a record created no later than the next key's. */
  predicate OrderedByCreation(records: map<string, Url>, keys: seq<string>) {
    |keys| <= 1
    || (&& keys[0] in records && keys[1] in records
        && records[keys[0]].createdAt <= records[keys[1]].createdAt
        && OrderedByCreation(records, keys[1..]))
  }

  /** Appending a key no older than the last keeps the order. */
  lemma {:induction false} OrderedAppend(records: map<string, Url>, keys: seq<string>, k: string)
    requires OrderedByCreation(records, keys) && k in records
    requires forall i :: 0 <= i < |keys| ==> keys[i] in records
    requires keys != [] ==> records[keys[|keys| - 1]].createdAt <= records[k].createdAt
    ensures OrderedByCreation(records, keys + [k])
  {
    if |keys| >= 2 {
      assert (keys + [k])[1..] == keys[1..] + [k];
      OrderedAppend(records, keys[1..], k);
    }
  }

  /** Creation order between neighbours is creation order between any two
      positions. */
  lemma {:induction false} OrderedPairs(records: map<string, Url>, keys: seq<string>, i: nat, j: nat)
    requires OrderedByCreation(records, keys)
    requires forall n :: 0 <= n < |keys| ==> keys[n] in records
    requires i <= j < |keys|
    ensures records[keys[i]].createdAt <= records[keys[j]].createdAt
    decreases |keys|
  {
    if i < j {
      var rest := keys[1..];
      if i == 0 {
        OrderedPairs(records, rest, 0, j - 1);
        assert rest[0] == keys[1] && rest[j - 1] == keys[j];
      } else {
        OrderedPairs(records, rest, i - 1, j - 1);
        assert rest[i - 1] == keys[i] && rest[j - 1] == keys[j];
      }
    }
  }

  /** A sequence has at most as many distinct elements as positions. */
  lemma {:induction false} ElementsBound(s: seq<string>)
    ensures |Elements(s)| <= |s|
  {
    if s != [] {
      ElementsBound(s[1..]);
      assert Elements(s) == Elements(s[1..]) + {s[0]};
    }
  }

  /** A sequence has as many distinct elements as positions exactly when no
      element repeats. */
  lemma {:induction false} DistinctCardinality(s: seq<string>)
    ensures |Elements(s)| == |s| <==> forall i, j :: 0 <= i < j < |s| ==> s[i] != s[j]
  {
    if s != [] {
      var rest := s[1..];
      DistinctCardinality(rest);
      ElementsBound(rest);
      assert Elements(s) == Elements(rest) + {s[0]};
      if s[0] in rest {
        var j :| 0 <= j < |rest| && rest[j] == s[0];
        assert s[0] == s[j + 1];
      } else if forall i, j :: 0 <= i < j < |rest| ==> rest[i] != rest[j] {
        forall i, j | 0 <= i < j < |s|
          ensures s[i] != s[j]
        {
          if i == 0 {
            assert s[j] == rest[j - 1];
          } else {
            assert s[i] == rest[i - 1] && s[j] == rest[j - 1];
          }
        }
      } else {
        var i, j :| 0 <= i < j < |rest| && rest[i] == rest[j];
        assert s[i + 1] == s[j + 1];
      }
    }
  }

  /** Every key of a correct expiry query names a selected record. */
  lemma QueryKeysAreSelected(records: map<string, Url>, cutoff: int, keys: seq<string>)
    requires IsExpiryQuery(records, cutoff, keys)
    ensures forall i :: 0 <= i < |keys| ==> keys[i] in records && ExpiresBefore(records[keys[i]], cutoff)
  {
    forall i | 0 <= i < |keys|
      ensures keys[i] in records && ExpiresBefore(records[keys[i]], cutoff)
    {
      assert keys[i] in Elements(keys);
    }
  }

  /** The keys of a correct expiry query are pairwise distinct and ordered
      by creation between any two positions. */
  lemma QueryIsDistinctAndOrdered(records: map<string, Url>, cutoff: int, keys: seq<string>)
    requires IsExpiryQuery(records, cutoff, keys)
    ensures forall i :: 0 <= i < |keys| ==> keys[i] in records
    ensures forall i, j :: 0 <= i < j < |keys| ==> keys[i] != keys[j]
    ensures forall i, j :: 0 <= i <= j < |keys| ==> records[keys[i]].createdAt <= records[keys[j]].createdAt
  {
    DistinctCardinality(keys);
    QueryKeysAreSelected(records, cutoff, keys);
    forall i, j | 0 <= i <= j < |keys|
      ensures records[keys[i]].createdAt <= records[keys[j]].createdAt
    {
      OrderedPairs(records, keys, i, j);
    }
  }

  /** The number of keys a correct expiry query returns is the number of
      records it selects. */
  lemma ExpiryQueryCount(records: map<string, Url>, cutoff: int, keys: seq<string>)
    requires IsExpiryQuery(records, cutoff, keys)
    ensures |keys| == |ExpiredKeys(records, cutoff)|
    ensures Elements(keys) == ExpiredKeys(records, cutoff)
  {
  }

  /** Every non-empty set of keys has one whose record was created first. */
  lemma {:induction false} EarliestExists(records: map<string, Url>, s: set<string>)
    requires s != {} && s <= records.Keys
    ensures exists k :: k in s && forall j :: j in s ==> records[k].createdAt <= records[j].createdAt
  {
    var x :| x in s;
    if s != {x} {
      EarliestExists(records, s - {x});
      var y :| y in s - {x} && forall j :: j in s - {x} ==> records[y].createdAt <= records[j].createdAt;
      if records[x].createdAt <= records[y].createdAt {
        assert forall j :: j in s ==> records[x].createdAt <= records[j].createdAt;
      } else {
        assert forall j :: j in s ==> records[y].createdAt <= records[j].createdAt;
      }
    }
  }

  /** The state of the selection loop that answers an expiry query: `keys`
      have been emitted in creation order, `remaining` are the selected keys
      still to emit, none older than the last one emitted. */
  ghost predicate SelectionInvariant(records: map<string, Url>, cutoff: int, keys: seq<string>, remaining: set<string>) {
    && SelectionSplits(records, cutoff, keys, remaining)
    && (forall i :: 0 <= i < |keys| ==> keys[i] in records)
    && OrderedByCreation(records, keys)
    && (keys != [] ==> forall k :: k in remaining ==> records[keys[|keys| - 1]].createdAt <= records[k].createdAt)
  }

  /** The selected keys are split between the emitted ones, each emitted
      once, and the remaining ones. */
  ghost predicate SelectionSplits(records: map<string, Url>, cutoff: int, keys: seq<string>, remaining: set<string>) {
    && remaining <= records.Keys
    && Elements(keys) + remaining == ExpiredKeys(records, cutoff)
    && Elements(keys) !! remaining
    && |Elements(keys)| == |keys|
  }

  /** Moving a remaining key to the end of the emitted ones keeps the split. */
  lemma SplitStep(records: map<string, Url>, cutoff: int, keys: seq<string>, remaining: set<string>, k: string)
    requires SelectionSplits(records, cutoff, keys, remaining) && k in remaining
    ensures SelectionSplits(records, cutoff, keys + [k], remaining - {k})
  {
    assert Elements(keys + [k]) == Elements(keys) + {k};
  }

  /** Emitting the earliest remaining key keeps the selection invariant. */
  lemma SelectionStep(records: map<string, Url>, cutoff: int, keys: seq<string>, remaining: set<string>, k: string)
    requires SelectionInvariant(records, cutoff, keys, remaining)
    requires k in remaining && forall j :: j in remaining ==> records[k].createdAt <= records[j].createdAt
    ensures SelectionInvariant(records, cutoff, keys + [k], remaining - {k})
  {
    var keys' := keys + [k];
    SplitStep(records, cutoff, keys, remaining, k);
    OrderedAppend(records, keys, k);
    assert keys'[|keys'| - 1] == k;
    forall i | 0 <= i < |keys'|
      ensures keys'[i] in records
    {
      if i < |keys| {
        assert keys'[i] == keys[i];
      }
    }
  }

  /** The `Url` table: rows keyed by their primary key `short`. */
  class Table {
    var records: map<string, Url>

    /** Each row is stored under its own key, and each key is a short key: the
        only writers of this table draw their keys from the generator. */
    ghost predicate Valid()
      reads this
    {
      forall k :: k in records ==> records[k].short == k && IsShortKey(k)
    }

    constructor ()
      ensures Valid() && records == map[]
    {
      records := map[];
    }

    /** `url.save()`: insert the row, or overwrite the row with its key. */
    method Save(u: Url)
      requires Valid() && IsShortKey(u.short)
      modifies this
      ensures Valid()
      ensures records == old(records)[u.short := u]
    {
      records := records[u.short := u];
    }

    /** `Url.objects.filter(short__in=keys).delete()`: absent keys are ignored. */
    method Delete(keys: set<string>)
      requires Valid()
      modifies this
      ensures Valid()
      ensures records == old(records) - keys
    {
      records := records - keys;
    }

    /** The query `filter(expiry_time__lt=cutoff).order_by("created_at")`,
        projected to the key. The database's ordering is modelled as a
        selection of the earliest remaining record. */
    method FindExpiredBefore(cutoff: int) returns (keys: seq<string>)
      ensures IsExpiryQuery(records, cutoff, keys)
    {
      var remaining := ExpiredKeys(records, cutoff);
      keys := [];
      while remaining != {}
        invariant SelectionInvariant(records, cutoff, keys, remaining)
        decreases remaining
      {
        EarliestExists(records, remaining);
        var k :| k in remaining && forall j :: j in remaining ==> records[k].createdAt <= records[j].createdAt;
        SelectionStep(records, cutoff, keys, remaining, k);
        keys := keys + [k];
        remaining := remaining - {k};
      }
      assert Elements(keys) == ExpiredKeys(records, cutoff);
    }
  }
}
