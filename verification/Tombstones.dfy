/**
 Tombstones of deleted files, oldest first, and the two ways the store trims them: popping from
 the front until a fresh one turns up, and scanning the whole queue.
 */
module Tombstones {
  import opened Types

  datatype Tombstone<+M> = Tombstone(path: Name, meta: M, deletedAt: nat)

  /** Five minutes, in the nanoseconds of the steady clock. */
  const TOMBSTONE_LIFETIME := 300_000_000_000

  const MAX_DELETED_ENTRIES := 10000

  predicate Expired<M>(t: Tombstone<M>, now: nat) {
    now - t.deletedAt > TOMBSTONE_LIFETIME
  }

  /** The tombstones a scan at `now` leaves. */
  function Kept<M>(ts: seq<Tombstone<M>>, now: nat): seq<Tombstone<M>> {
    if |ts| == 0 then []
    else if Expired(ts[0], now) then Kept(ts[1..], now)
    else [ts[0]] + Kept(ts[1..], now)
  }

  /** The tombstones a scan at `now` removes. */
  function Condemned<M>(ts: seq<Tombstone<M>>, now: nat): seq<Tombstone<M>> {
    if |ts| == 0 then []
    else if Expired(ts[0], now) then [ts[0]] + Condemned(ts[1..], now)
    else Condemned(ts[1..], now)
  }

  /** How many tombstones the front-popping loop removes at `now`. */
  function ExpiredPrefix<M>(ts: seq<Tombstone<M>>, now: nat): (k: nat)
    ensures k <= |ts|
    ensures forall i :: 0 <= i < k ==> Expired(ts[i], now)
    ensures k < |ts| ==> !Expired(ts[k], now)
  {
    if |ts| == 0 || !Expired(ts[0], now) then 0 else 1 + ExpiredPrefix(ts[1..], now)
  }

  ghost predicate Sorted<M>(ts: seq<Tombstone<M>>) {
    forall i, j :: 0 <= i < j < |ts| ==> ts[i].deletedAt <= ts[j].deletedAt
  }

  /** No expired tombstone stands behind one that is not. */
  ghost predicate ExpiredFirst<M>(ts: seq<Tombstone<M>>, now: nat) {
    forall i, j :: 0 <= i < j < |ts| && Expired(ts[j], now) ==> Expired(ts[i], now)
  }

  lemma {:induction false} KeptShape<M>(ts: seq<Tombstone<M>>, now: nat)
    ensures forall i :: 0 <= i < |Kept(ts, now)| ==> !Expired(Kept(ts, now)[i], now) && Kept(ts, now)[i] in ts
  {
    if |ts| > 0 {
      KeptShape(ts[1..], now);
      assert ts == [ts[0]] + ts[1..];
    }
  }

  lemma {:induction false} NoneExpired<M>(ts: seq<Tombstone<M>>, now: nat)
    requires forall i :: 0 <= i < |ts| ==> !Expired(ts[i], now)
    ensures Kept(ts, now) == ts && Condemned(ts, now) == []
  {
    if |ts| > 0 {
      NoneExpired(ts[1..], now);
    }
  }

  /** A scan keeps the order of the queue, in what it leaves and in what it removes. */
  lemma {:induction false} KeptAppend<M>(ts: seq<Tombstone<M>>, t: Tombstone<M>, now: nat)
    ensures Kept(ts + [t], now) == Kept(ts, now) + (if now - t.deletedAt > 300_000_000_000 then [] else [t])
  {
    if |ts| == 0 {
      assert ts + [t] == [t];
    } else {
      KeptAppend(ts[1..], t, now);
      assert (ts + [t])[0] == ts[0] && (ts + [t])[1..] == ts[1..] + [t];
    }
  }

  lemma {:induction false} CondemnedAppend<M>(ts: seq<Tombstone<M>>, t: Tombstone<M>, now: nat)
    ensures Condemned(ts + [t], now) == Condemned(ts, now) + (if now - t.deletedAt > 300_000_000_000 then [t] else [])
  {
    if |ts| == 0 {
      assert ts + [t] == [t];
    } else {
      CondemnedAppend(ts[1..], t, now);
      assert (ts + [t])[0] == ts[0] && (ts + [t])[1..] == ts[1..] + [t];
    }
  }

  /** A scan splits the queue: nothing is lost, nothing is invented. */
  lemma {:induction false} ScanSplits<M>(ts: seq<Tombstone<M>>, now: nat)
    ensures multiset(Kept(ts, now)) + multiset(Condemned(ts, now)) == multiset(ts)
  {
    if |ts| > 0 {
      ScanSplits(ts[1..], now);
      assert ts == [ts[0]] + ts[1..];
    }
  }

  lemma {:induction false} KeptStaysSorted<M>(ts: seq<Tombstone<M>>, now: nat)
    requires Sorted(ts)
    ensures Sorted(Kept(ts, now))
  {
    if |ts| > 0 {
      KeptStaysSorted(ts[1..], now);
      if !Expired(ts[0], now) {
        var rest := Kept(ts[1..], now);
        forall j | 0 <= j < |rest|
          ensures ts[0].deletedAt <= rest[j].deletedAt
        {
          KeptShape(ts[1..], now);
          assert rest[j] in ts[1..];
        }
      }
    }
  }

  /** Every deletion happened at `tick` or before. */
  ghost predicate UpTo<M>(ts: seq<Tombstone<M>>, tick: nat) {
    forall i :: 0 <= i < |ts| ==> ts[i].deletedAt <= tick
  }

  lemma {:induction false} KeptStaysUpTo<M>(ts: seq<Tombstone<M>>, now: nat, tick: nat)
    requires UpTo(ts, tick)
    ensures UpTo(Kept(ts, now), tick)
  {
    if |ts| > 0 {
      KeptStaysUpTo(ts[1..], now, tick);
    }
  }

  /**
   The front-popping loop leaves what the full scan leaves exactly when no expired tombstone stands
   behind a fresh one.
   */
  lemma PopIsScanExactly<M>(ts: seq<Tombstone<M>>, now: nat)
    ensures ts[ExpiredPrefix(ts, now)..] == Kept(ts, now) <==> ExpiredFirst(ts, now)
  {
    if ExpiredFirst(ts, now) {
      ScanOfExpiredFirst(ts, now);
    }
    if ts[ExpiredPrefix(ts, now)..] == Kept(ts, now) {
      FreshBehindPrefix(ts, now);
    }
  }

  lemma FreshBehindPrefix<M>(ts: seq<Tombstone<M>>, now: nat)
    requires ts[ExpiredPrefix(ts, now)..] == Kept(ts, now)
    ensures ExpiredFirst(ts, now)
  {
    var k, kept := ExpiredPrefix(ts, now), Kept(ts, now);
    KeptShape(ts, now);
    forall j | k <= j < |ts|
      ensures !Expired(ts[j], now)
    {
      assert kept[j - k] == ts[k..][j - k];
    }
  }

  lemma {:induction false} ScanOfExpiredFirst<M>(ts: seq<Tombstone<M>>, now: nat)
    requires ExpiredFirst(ts, now)
    ensures Kept(ts, now) == ts[ExpiredPrefix(ts, now)..]
    ensures Condemned(ts, now) == ts[..ExpiredPrefix(ts, now)]
  {
    if |ts| == 0 {
    } else if Expired(ts[0], now) {
      var rest := ts[1..];
      assert ExpiredFirst(rest, now);
      ScanOfExpiredFirst(rest, now);
      var k := ExpiredPrefix(rest, now);
      assert ExpiredPrefix(ts, now) == k + 1;
      assert ts[k + 1..] == rest[k..] && ts[..k + 1] == [ts[0]] + rest[..k];
    } else {
      NoneExpired(ts, now);
    }
  }

  lemma SortedExpiresFirst<M>(ts: seq<Tombstone<M>>, now: nat)
    requires Sorted(ts)
    ensures ExpiredFirst(ts, now)
  {
  }

  /** Popping is not scanning on a queue out of order. */
  lemma PopNeedsOrder<M>(m: M)
    ensures var ts := [Tombstone("fresh", m, TOMBSTONE_LIFETIME + 1), Tombstone("stale", m, 0)];
            ts[ExpiredPrefix(ts, TOMBSTONE_LIFETIME + 1)..] != Kept(ts, TOMBSTONE_LIFETIME + 1)
  {
    var ts := [Tombstone("fresh", m, TOMBSTONE_LIFETIME + 1), Tombstone("stale", m, 0)];
    PopIsScanExactly(ts, TOMBSTONE_LIFETIME + 1);
    assert Expired(ts[1], TOMBSTONE_LIFETIME + 1) && !Expired(ts[0], TOMBSTONE_LIFETIME + 1);
  }

  function Metas<M>(ts: seq<Tombstone<M>>): seq<M> {
    seq(|ts|, i requires 0 <= i < |ts| => ts[i].meta)
  }

  // ---------------------------------------------------------------- the erasing scan

  /** What the scan at `now`, standing at index `it`, will leave. */
  function ScanResult<M>(ts: seq<Tombstone<M>>, it: nat, now: nat): seq<Tombstone<M>>
    requires it <= |ts|
  {
    ts[..it] + Kept(ts[it..], now)
  }

  /** What the scan at `now` has still to hand to the deleter. */
  function ScanAhead<M>(ts: seq<Tombstone<M>>, it: nat, now: nat): seq<M>
    requires it <= |ts|
  {
    Metas(Condemned(ts[it..], now))
  }

  /**
   Where the scan stands: `result` is what it will leave, and what it has handed over, `done`, and
   what it still will make up `all`.
   */
  ghost predicate Scans<M>(ts: seq<Tombstone<M>>, it: nat, now: nat, result: seq<Tombstone<M>>, done: seq<M>, all: seq<M>) {
    it <= |ts| && ScanResult(ts, it, now) == result && done + ScanAhead(ts, it, now) == all
  }

  lemma ScanErases<M>(ts: seq<Tombstone<M>>, it: nat, now: nat)
    requires it < |ts| && Expired(ts[it], now)
    ensures var rest := ts[..it] + ts[it + 1..];
            && ScanResult(rest, it, now) == ScanResult(ts, it, now)
            && ScanAhead(ts, it, now) == [ts[it].meta] + ScanAhead(rest, it, now)
  {
    var rest := ts[..it] + ts[it + 1..];
    assert ts[it..] == [ts[it]] + ts[it + 1..] && rest[it..] == ts[it + 1..] && rest[..it] == ts[..it];
  }

  lemma ScanPasses<M>(ts: seq<Tombstone<M>>, it: nat, now: nat)
    requires it < |ts| && !Expired(ts[it], now)
    ensures ScanResult(ts, it + 1, now) == ScanResult(ts, it, now)
    ensures ScanAhead(ts, it + 1, now) == ScanAhead(ts, it, now)
  {
    assert ts[it..] == [ts[it]] + ts[it + 1..] && ts[..it + 1] == ts[..it] + [ts[it]];
  }

  lemma ScanEnds<M>(ts: seq<Tombstone<M>>, now: nat)
    ensures ScanResult(ts, |ts|, now) == ts && ScanAhead(ts, |ts|, now) == []
    ensures ScanResult(ts, 0, now) == Kept(ts, now) && ScanAhead(ts, 0, now) == Metas(Condemned(ts, now))
  {
    assert ts[|ts|..] == [] && ts[0..] == ts;
  }

  lemma ScansStart<M>(ts: seq<Tombstone<M>>, now: nat)
    ensures Scans(ts, 0, now, Kept(ts, now), [], Metas(Condemned(ts, now)))
  {
    ScanEnds(ts, now);
  }

  lemma ScansOn<M>(ts: seq<Tombstone<M>>, it: nat, now: nat, result: seq<Tombstone<M>>, done: seq<M>, all: seq<M>)
    requires it < |ts| && Scans(ts, it, now, result, done, all)
    ensures if Expired(ts[it], now) then Scans(ts[..it] + ts[it + 1..], it, now, result, done + [ts[it].meta], all)
            else Scans(ts, it + 1, now, result, done, all)
  {
    if Expired(ts[it], now) {
      ScanErases(ts, it, now);
    } else {
      ScanPasses(ts, it, now);
    }
  }

  lemma ScansDone<M>(ts: seq<Tombstone<M>>, now: nat, result: seq<Tombstone<M>>, done: seq<M>, all: seq<M>)
    requires Scans(ts, |ts|, now, result, done, all)
    ensures ts == result && done == all
  {
    ScanEnds(ts, now);
  }
}
