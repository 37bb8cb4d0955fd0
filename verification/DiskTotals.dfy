/**
 Disk totals over the mounted partitions. On macOS several mounts belong to one physical disk: only its
 largest partition counts, and a larger one found later replaces what was added before.
 */
module DiskTotals {
  import opened Options
  import opened Sums

  import opened Uint64

  datatype Usage = Usage(total: nat, used: nat)

  /** A mounted partition; `usage` is absent when its usage cannot be read. */
  datatype Partition = Partition(device: string, mountpoint: string, usage: Option<Usage>)

  /** What the loop counts: a partition that passes the filters, under the key of its physical disk. */
  datatype Entry = Entry(key: string, usage: Usage)

  lemma AddWraps(sum: int, x: int)
    ensures Add64(sum % TWO_64, x) == (sum + x) % TWO_64
  {
  }

  /** Wrapped or not, taking one figure out and adding another gives the wrapped sum of what is left. */
  lemma ReplaceWraps(sum: int, x: int, y: int)
    ensures Add64(Sub64(sum % TWO_64, x), y) == (sum - x + y) % TWO_64
  {
  }

  // ---- The reference: one winner per disk ----

  /** Entry i has the largest total of its disk, and no entry before it has as much. */
  predicate Wins(entries: seq<Entry>, i: nat)
    requires i < |entries|
  {
    forall j :: 0 <= j < |entries| && entries[j].key == entries[i].key ==>
      && entries[j].usage.total <= entries[i].usage.total
      && (j < i ==> entries[j].usage.total < entries[i].usage.total)
  }

  function Counts(entries: seq<Entry>, figure: Usage -> nat): seq<int> {
    seq(|entries|, i requires 0 <= i < |entries| => if Wins(entries, i) then figure(entries[i].usage) else 0)
  }

  function Total(u: Usage): nat { u.total }

  function Used(u: Usage): nat { u.used }

  /** The sum of a figure over the winners. */
  function WinnerSum(entries: seq<Entry>, figure: Usage -> nat): int {
    Sum(Counts(entries, figure))
  }

  /** The table of disks seen so far: each key with the usage of its winner. */
  ghost predicate Winners(processed: map<string, Usage>, entries: seq<Entry>) {
    && (forall i :: 0 <= i < |entries| ==> entries[i].key in processed)
    && (forall k :: k in processed ==>
          exists i :: 0 <= i < |entries| && entries[i].key == k && entries[i].usage == processed[k] && Wins(entries, i))
  }

  // ---- One more entry ----

  lemma WinsAppend(entries: seq<Entry>, e: Entry, i: nat)
    requires i < |entries|
    ensures Wins(entries + [e], i)
            <==> Wins(entries, i) && (e.key == entries[i].key ==> e.usage.total <= entries[i].usage.total)
  {
    var all := entries + [e];
    assert forall j :: 0 <= j < |entries| ==> all[j] == entries[j];
    assert all[|entries|] == e;
    if Wins(all, i) {
      forall j | 0 <= j < |entries| && entries[j].key == entries[i].key
        ensures entries[j].usage.total <= entries[i].usage.total
        ensures j < i ==> entries[j].usage.total < entries[i].usage.total
      {
        assert all[j].key == all[i].key;
      }
    }
  }

  lemma OneWinner(entries: seq<Entry>, i: nat, j: nat)
    requires i < |entries| && j < |entries| && entries[i].key == entries[j].key
    requires Wins(entries, i) && Wins(entries, j)
    ensures i == j
  {
  }

  /** The first entry of a disk always counts. */
  lemma FirstOfDisk(entries: seq<Entry>, e: Entry, figure: Usage -> nat)
    requires forall i :: 0 <= i < |entries| ==> entries[i].key != e.key
    ensures WinnerSum(entries + [e], figure) == WinnerSum(entries, figure) + figure(e.usage)
  {
    var all := entries + [e];
    forall i: nat | i < |entries| ensures Wins(all, i) == Wins(entries, i) {
      WinsAppend(entries, e, i);
    }
    assert forall i :: 0 <= i < |entries| ==> all[i].key != e.key;
    assert Wins(all, |entries|);
    assert Counts(all, figure) == Counts(entries, figure) + [figure(e.usage)];
    SumAppend(Counts(entries, figure), figure(e.usage));
  }

  /** An entry no larger than its disk's winner changes nothing. */
  lemma Loses(entries: seq<Entry>, e: Entry, w: nat, figure: Usage -> nat)
    requires w < |entries| && entries[w].key == e.key && Wins(entries, w) && e.usage.total <= entries[w].usage.total
    ensures WinnerSum(entries + [e], figure) == WinnerSum(entries, figure)
  {
    var all := entries + [e];
    forall i: nat | i < |entries| ensures Wins(all, i) == Wins(entries, i) {
      WinsAppend(entries, e, i);
      if Wins(entries, i) && entries[i].key == e.key {
        OneWinner(entries, i, w);
      }
    }
    assert all[w].key == all[|entries|].key && !Wins(all, |entries|);
    assert Counts(all, figure) == Counts(entries, figure) + [0];
    SumAppend(Counts(entries, figure), 0);
  }

  /** A larger entry takes the winner's place. */
  lemma Replaces(entries: seq<Entry>, e: Entry, w: nat, figure: Usage -> nat)
    requires w < |entries| && entries[w].key == e.key && Wins(entries, w) && e.usage.total > entries[w].usage.total
    ensures Wins(entries + [e], |entries|)
    ensures WinnerSum(entries + [e], figure) == WinnerSum(entries, figure) - figure(entries[w].usage) + figure(e.usage)
  {
    var all := entries + [e];
    forall i: nat | i < |entries| ensures Wins(all, i) == (i != w && Wins(entries, i)) {
      WinsAppend(entries, e, i);
      if Wins(entries, i) && entries[i].key == e.key {
        OneWinner(entries, i, w);
      }
    }
    var counts := Counts(entries, figure)[w := 0];
    assert Counts(all, figure) == counts + [figure(e.usage)];
    SumUpdate(Counts(entries, figure), w, 0);
    SumAppend(counts, figure(e.usage));
  }

  // ---- Sizes ----

  /** Whatever a disk contributes is in the sum, so taking it out again cannot underflow. */
  lemma WinnerWithinSum(entries: seq<Entry>, w: nat, figure: Usage -> nat)
    requires w < |entries| && Wins(entries, w)
    ensures figure(entries[w].usage) <= WinnerSum(entries, figure)
  {
    var counts := Counts(entries, figure);
    SumUpdate(counts, w, 0);
    SumNonNegative(counts[w := 0]);
  }

  lemma {:induction false} SumLess(s: seq<int>, t: seq<int>)
    requires |s| == |t| && forall i :: 0 <= i < |s| ==> s[i] <= t[i]
    ensures Sum(s) <= Sum(t)
  {
    if s != [] {
      SumLess(s[..|s| - 1], t[..|t| - 1]);
    }
  }

  // ---- The filters ----

  /** The position of the first "s", or -1. */
  function FirstS(device: string): (i: int)
    ensures -1 <= i < |device|
    ensures i < 0 <==> 's' !in device
    ensures i >= 0 ==> device[i] == 's' && 's' !in device[..i]
  {
    if device == "" then -1
    else if device[0] == 's' then 0
    else
      var i := FirstS(device[1..]);
      assert device == [device[0]] + device[1..];
      assert i >= 0 ==> device[..i + 1] == [device[0]] + device[1..][..i];
      if i < 0 then -1 else i + 1
  }

  /** The name before the first "s", meant to cut off the partition number. */
  function DeviceBase(device: string): string {
    if FirstS(device) > 0 then device[..FirstS(device)] else device
  }

  /** The cut is at the first "s", whatever it belongs to; a name that starts with it, or has none, stays whole. */
  lemma DeviceBaseCut(device: string)
    ensures DeviceBase(device) <= device
    ensures DeviceBase(device) == device <==> 's' !in device || device[0] == 's'
    ensures DeviceBase(device) != device ==>
              DeviceBase(device) != "" && 's' !in DeviceBase(device) && device[|DeviceBase(device)|] == 's'
  {
  }

  /** The first "s" of a macOS device name is the one inside "disk": all physical disks share one key. */
  lemma AllDisksShareOneKey(rest: string)
    ensures DeviceBase("/dev/disk" + rest) == "/dev/di"
  {
    var d := "/dev/disk" + rest;
    assert d[7] == 's' && d[..7] == "/dev/di";
    assert forall k :: 0 <= k < 7 ==> d[k] == "/dev/di"[k] && d[k] != 's';
    assert FirstS(d) <= 7;
  }

  predicate Selected(p: Partition, mountPoints: seq<string>, darwin: bool) {
    && (|mountPoints| > 0 ==> p.mountpoint in mountPoints)
    && !(darwin && "/System/Volumes/" <= p.mountpoint)
    && p.usage.Some?
  }

  /** Selected: readable, at one of the given mount points if any are given, and on macOS not below /System/Volumes. */
  lemma SelectedIff(p: Partition, mountPoints: seq<string>, darwin: bool)
    ensures Selected(p, mountPoints, darwin) <==>
            && p.usage.Some?
            && (mountPoints == [] || exists i :: 0 <= i < |mountPoints| && mountPoints[i] == p.mountpoint)
            && (darwin ==> |p.mountpoint| < 16 || p.mountpoint[..16] != "/System/Volumes/")
  {
    if "/System/Volumes/" <= p.mountpoint {
      assert p.mountpoint[..16] == "/System/Volumes/";
    }
  }

  function Entries(partitions: seq<Partition>, mountPoints: seq<string>, darwin: bool): seq<Entry> {
    if partitions == [] then []
    else
      var p := partitions[|partitions| - 1];
      Entries(partitions[..|partitions| - 1], mountPoints, darwin)
      + if Selected(p, mountPoints, darwin) then [Entry(DeviceBase(p.device), p.usage.value)] else []
  }

  /** With one key for all partitions, the totals are the figures of one partition, the first largest. */
  lemma {:induction false} OneKeyOneWinner(entries: seq<Entry>) returns (w: nat)
    requires entries != [] && forall i :: 0 <= i < |entries| ==> entries[i].key == entries[0].key
    ensures w < |entries| && Wins(entries, w)
    ensures WinnerSum(entries, Total) == entries[w].usage.total && WinnerSum(entries, Used) == entries[w].usage.used
  {
    var n := |entries| - 1;
    var before, e := entries[..n], entries[n];
    assert entries == before + [e];
    if n == 0 {
      w := 0;
      assert Counts(before, Total) == Counts(before, Used) == [];
      FirstOfDisk(before, e, Total);
      FirstOfDisk(before, e, Used);
    } else {
      w := OneKeyOneWinner(before);
      if e.usage.total <= before[w].usage.total {
        Loses(before, e, w, Total);
        Loses(before, e, w, Used);
        WinsAppend(before, e, w);
      } else {
        Replaces(before, e, w, Total);
        Replaces(before, e, w, Used);
        w := n;
      }
    }
  }

  lemma {:induction false} DiskEntries(partitions: seq<Partition>, mountPoints: seq<string>)
    requires forall p :: p in partitions && Selected(p, mountPoints, true) ==> "/dev/disk" <= p.device
    ensures forall e :: e in Entries(partitions, mountPoints, true) ==> e.key == "/dev/di"
  {
    if partitions != [] {
      var p := partitions[|partitions| - 1];
      DiskEntries(partitions[..|partitions| - 1], mountPoints);
      if Selected(p, mountPoints, true) {
        assert p.device == "/dev/disk" + p.device[9..];
        AllDisksShareOneKey(p.device[9..]);
      }
    }
  }

  function Figures(entries: seq<Entry>, figure: Usage -> nat): seq<int> {
    seq(|entries|, i requires 0 <= i < |entries| => figure(entries[i].usage))
  }

  /** What the totals should be: one winner per disk on macOS, everything elsewhere. */
  function Expected(entries: seq<Entry>, darwin: bool, figure: Usage -> nat): int {
    if darwin then WinnerSum(entries, figure) else Sum(Figures(entries, figure))
  }

  /** On macOS the collector reports a single partition of the whole machine, however many disks it has. */
  lemma MacReportsOnePartition(partitions: seq<Partition>, mountPoints: seq<string>) returns (w: nat)
    requires forall p :: p in partitions && Selected(p, mountPoints, true) ==> "/dev/disk" <= p.device
    requires Entries(partitions, mountPoints, true) != []
    ensures var entries := Entries(partitions, mountPoints, true);
            && w < |entries|
            && (forall i :: 0 <= i < |entries| ==> entries[i].usage.total <= entries[w].usage.total)
            && Expected(entries, true, Total) == entries[w].usage.total
            && Expected(entries, true, Used) == entries[w].usage.used
  {
    var entries := Entries(partitions, mountPoints, true);
    DiskEntries(partitions, mountPoints);
    assert forall i :: 0 <= i < |entries| ==> entries[i] in entries;
    w := OneKeyOneWinner(entries);
  }

  /** If no partition uses more than it has, neither do the totals. */
  lemma UsedWithinTotal(entries: seq<Entry>, darwin: bool)
    requires forall i :: 0 <= i < |entries| ==> entries[i].usage.used <= entries[i].usage.total
    ensures 0 <= Expected(entries, darwin, Used) <= Expected(entries, darwin, Total)
  {
    forall i | 0 <= i < |entries|
      ensures 0 <= Used(entries[i].usage) <= Total(entries[i].usage)
    {
    }
    if darwin {
      SumNonNegative(Counts(entries, Used));
      SumLess(Counts(entries, Used), Counts(entries, Total));
    } else {
      SumNonNegative(Figures(entries, Used));
      SumLess(Figures(entries, Used), Figures(entries, Total));
    }
  }

  /** Each partition in turn adds one entry, with its own usage, or none. */
  lemma {:induction false} EntriesAppend(partitions: seq<Partition>, p: Partition, mountPoints: seq<string>,
                                         darwin: bool)
    ensures Entries(partitions + [p], mountPoints, darwin)
            == Entries(partitions, mountPoints, darwin)
               + (if p.usage.Some?
                     && (mountPoints == [] || exists i :: 0 <= i < |mountPoints| && mountPoints[i] == p.mountpoint)
                     && (darwin ==> |p.mountpoint| < 16 || p.mountpoint[..16] != "/System/Volumes/")
                  then [Entry(DeviceBase(p.device), p.usage.value)] else [])
  {
    assert (partitions + [p])[..|partitions|] == partitions;
    SelectedIff(p, mountPoints, darwin);
  }

  /** The running totals of the loop, wrapped, and the table of disks. */
  ghost predicate Tracks(entries: seq<Entry>, darwin: bool, processed: map<string, Usage>, total: int, used: int) {
    && total == Expected(entries, darwin, Total) % TWO_64
    && used == Expected(entries, darwin, Used) % TWO_64
    && (darwin ==> Winners(processed, entries))
  }

  lemma WinnersKeep(processed: map<string, Usage>, entries: seq<Entry>, e: Entry, w: nat)
    requires Winners(processed, entries) && w < |entries| && entries[w].key == e.key && Wins(entries, w)
    requires e.usage.total <= entries[w].usage.total
    ensures Winners(processed, entries + [e])
  {
    var all := entries + [e];
    forall k | k in processed
      ensures exists i :: 0 <= i < |all| && all[i].key == k && all[i].usage == processed[k] && Wins(all, i)
    {
      var i :| 0 <= i < |entries| && entries[i].key == k && entries[i].usage == processed[k] && Wins(entries, i);
      WinsAppend(entries, e, i);
      if k == e.key {
        OneWinner(entries, i, w);
      }
      assert all[i] == entries[i] && Wins(all, i);
    }
    forall i | 0 <= i < |all| ensures all[i].key in processed {
      assert i < |entries| ==> all[i] == entries[i];
    }
  }

  lemma LosesToWinner(entries: seq<Entry>, e: Entry, processed: map<string, Usage>)
    requires Winners(processed, entries) && e.key in processed && e.usage.total <= processed[e.key].total
    ensures Winners(processed, entries + [e])
    ensures WinnerSum(entries + [e], Total) == WinnerSum(entries, Total)
    ensures WinnerSum(entries + [e], Used) == WinnerSum(entries, Used)
  {
    var w :| 0 <= w < |entries| && entries[w].key == e.key && entries[w].usage == processed[e.key] && Wins(entries, w);
    Loses(entries, e, w, Total);
    Loses(entries, e, w, Used);
    WinnersKeep(processed, entries, e, w);
  }

  lemma WinnersUpdate(processed: map<string, Usage>, entries: seq<Entry>, e: Entry)
    requires Winners(processed, entries)
    requires e.key in processed ==> e.usage.total > processed[e.key].total
    ensures Winners(processed[e.key := e.usage], entries + [e])
  {
    var all := entries + [e];
    var processed' := processed[e.key := e.usage];
    forall k | k in processed'
      ensures exists i :: 0 <= i < |all| && all[i].key == k && all[i].usage == processed'[k] && Wins(all, i)
    {
      if k == e.key {
        if e.key in processed {
          var w :| 0 <= w < |entries| && entries[w].key == k && entries[w].usage == processed[k] && Wins(entries, w);
          Replaces(entries, e, w, Total);
        } else {
          FirstOfDisk(entries, e, Total);
          assert forall i :: 0 <= i < |entries| ==> all[i].key != e.key;
        }
        assert all[|entries|] == e && Wins(all, |entries|);
      } else {
        var i :| 0 <= i < |entries| && entries[i].key == k && entries[i].usage == processed[k] && Wins(entries, i);
        WinsAppend(entries, e, i);
        assert all[i] == entries[i] && Wins(all, i);
      }
    }
    forall i | 0 <= i < |all| ensures all[i].key in processed' {
      assert i < |entries| ==> all[i] == entries[i];
    }
  }

  lemma ReplacesWinner(entries: seq<Entry>, e: Entry, processed: map<string, Usage>)
    requires Winners(processed, entries) && e.key in processed && e.usage.total > processed[e.key].total
    ensures Winners(processed[e.key := e.usage], entries + [e])
    ensures Add64(Sub64(WinnerSum(entries, Total) % TWO_64, processed[e.key].total), e.usage.total)
            == WinnerSum(entries + [e], Total) % TWO_64
    ensures Add64(Sub64(WinnerSum(entries, Used) % TWO_64, processed[e.key].used), e.usage.used)
            == WinnerSum(entries + [e], Used) % TWO_64
  {
    var w :| 0 <= w < |entries| && entries[w].key == e.key && entries[w].usage == processed[e.key] && Wins(entries, w);
    Replaces(entries, e, w, Total);
    Replaces(entries, e, w, Used);
    ReplaceWraps(WinnerSum(entries, Total), processed[e.key].total, e.usage.total);
    ReplaceWraps(WinnerSum(entries, Used), processed[e.key].used, e.usage.used);
    WinnersUpdate(processed, entries, e);
  }

  lemma FirstWinner(entries: seq<Entry>, e: Entry, processed: map<string, Usage>)
    requires Winners(processed, entries) && e.key !in processed
    ensures Winners(processed[e.key := e.usage], entries + [e])
    ensures Add64(WinnerSum(entries, Total) % TWO_64, e.usage.total) == WinnerSum(entries + [e], Total) % TWO_64
    ensures Add64(WinnerSum(entries, Used) % TWO_64, e.usage.used) == WinnerSum(entries + [e], Used) % TWO_64
  {
    FirstOfDisk(entries, e, Total);
    FirstOfDisk(entries, e, Used);
    AddWraps(WinnerSum(entries, Total), e.usage.total);
    AddWraps(WinnerSum(entries, Used), e.usage.used);
    WinnersUpdate(processed, entries, e);
  }

  lemma FiguresAppend(entries: seq<Entry>, e: Entry, figure: Usage -> nat)
    ensures Sum(Figures(entries + [e], figure)) == Sum(Figures(entries, figure)) + figure(e.usage)
  {
    assert Figures(entries + [e], figure) == Figures(entries, figure) + [figure(e.usage)];
    SumAppend(Figures(entries, figure), figure(e.usage));
  }

  /** Off macOS every entry counts, whatever its disk. */
  lemma ExpectedElsewhere(entries: seq<Entry>, e: Entry)
    ensures Expected([], false, Total) == Expected([], false, Used) == 0
    ensures Expected(entries + [e], false, Total) == Expected(entries, false, Total) + e.usage.total
    ensures Expected(entries + [e], false, Used) == Expected(entries, false, Used) + e.usage.used
  {
    FiguresAppend(entries, e, Total);
    FiguresAppend(entries, e, Used);
  }

  /** One entry of the loop body, after the filters. */
  method Count(ghost entries: seq<Entry>, e: Entry, darwin: bool, processed: map<string, Usage>,
               totalBytes: int, usedBytes: int)
    returns (processed': map<string, Usage>, total: int, used: int)
    requires Tracks(entries, darwin, processed, totalBytes, usedBytes)
    ensures Tracks(entries + [e], darwin, processed', total, used)
  {
    processed', total, used := processed, totalBytes, usedBytes;
    if darwin {
      if e.key in processed {
        var existing := processed[e.key];
        if e.usage.total <= existing.total {
          LosesToWinner(entries, e, processed);
          return;
        }
        ReplacesWinner(entries, e, processed);
        total := Sub64(total, existing.total);
        used := Sub64(used, existing.used);
      } else {
        FirstWinner(entries, e, processed);
      }
      processed' := processed[e.key := e.usage];
    } else {
      FiguresAppend(entries, e, Total);
      FiguresAppend(entries, e, Used);
      AddWraps(Expected(entries, darwin, Total), e.usage.total);
      AddWraps(Expected(entries, darwin, Used), e.usage.used);
    }
    total := Add64(total, e.usage.total);
    used := Add64(used, e.usage.used);
  }

  lemma FitsExactly(total: int, used: int)
    requires 0 <= used <= total < TWO_64
    ensures total % TWO_64 == total && used % TWO_64 == used && Sub64(total, used) == total - used
  {
  }

  lemma HundredTimesRatio(a: real, b: real)
    requires b > 0.0
    ensures a / b * 100.0 * b == 100.0 * a
  {
    var q := a / b;
    assert q * b == a;
    assert q * 100.0 * b == 100.0 * (q * b);
  }

  lemma RatioAtMostOne(a: real, b: real)
    requires 0.0 <= a <= b && b > 0.0
    ensures 0.0 <= a / b <= 1.0
  {
    var q := a / b;
    assert q * b == a;
    assert (1.0 - q) * b >= 0.0;
  }

  method Percent(used: int, total: int) returns (percent: real)
    requires 0 <= used && 0 <= total
    ensures if total == 0 then percent == 0.0 else percent * (total as real) == 100.0 * (used as real)
    ensures used <= total ==> 0.0 <= percent <= 100.0
  {
    percent := 0.0;
    if total > 0 {
      percent := (used as real) / (total as real) * 100.0;
      HundredTimesRatio(used as real, total as real);
      if used <= total {
        RatioAtMostOne(used as real, total as real);
      }
    }
  }

  /** The collection loop. */
  method SumPartitions(partitions: seq<Partition>, mountPoints: seq<string>, darwin: bool)
    returns (totalBytes: int, usedBytes: int)
    ensures totalBytes == Expected(Entries(partitions, mountPoints, darwin), darwin, Total) % TWO_64
    ensures usedBytes == Expected(Entries(partitions, mountPoints, darwin), darwin, Used) % TWO_64
  {
    totalBytes, usedBytes := 0, 0;
    var processed: map<string, Usage> := map[];
    ghost var entries: seq<Entry> := [];
    assert Counts([], Total) == Counts([], Used) == Figures([], Total) == Figures([], Used) == [];
    for i := 0 to |partitions|
      invariant entries == Entries(partitions[..i], mountPoints, darwin)
      invariant Tracks(entries, darwin, processed, totalBytes, usedBytes)
    {
      var p := partitions[i];
      assert partitions[..i + 1][..i] == partitions[..i];
      if |mountPoints| > 0 {
        if p.mountpoint !in mountPoints {
          continue;
        }
      }
      if darwin {
        if "/System/Volumes/" <= p.mountpoint {
          continue;
        }
      }
      if p.usage.None? {
        continue;
      }
      var e := Entry(DeviceBase(p.device), p.usage.value);
      processed, totalBytes, usedBytes := Count(entries, e, darwin, processed, totalBytes, usedBytes);
      entries := entries + [e];
    }
    assert partitions[..|partitions|] == partitions;
  }

  /** Sums of partitions within their sizes, which fit 64 bits, come out exact. */
  lemma FittingTotals(entries: seq<Entry>, darwin: bool)
    requires forall i :: 0 <= i < |entries| ==> entries[i].usage.used <= entries[i].usage.total
    requires Expected(entries, darwin, Total) < TWO_64
    ensures var total, used := Expected(entries, darwin, Total), Expected(entries, darwin, Used);
            total % TWO_64 == total && used % TWO_64 == used && used <= total && Sub64(total, used) == total - used
  {
    UsedWithinTotal(entries, darwin);
    FitsExactly(Expected(entries, darwin, Total), Expected(entries, darwin, Used));
  }

  method Collect(partitions: seq<Partition>, mountPoints: seq<string>, darwin: bool)
    returns (totalBytes: int, usedBytes: int, freeBytes: int, usagePercent: real)
    ensures var entries := Entries(partitions, mountPoints, darwin);
            && totalBytes == Expected(entries, darwin, Total) % TWO_64
            && usedBytes == Expected(entries, darwin, Used) % TWO_64
            && freeBytes == (totalBytes - usedBytes) % TWO_64
    ensures if totalBytes == 0 then usagePercent == 0.0
            else usagePercent * (totalBytes as real) == 100.0 * (usedBytes as real)
    ensures usedBytes <= totalBytes ==> 0.0 <= usagePercent <= 100.0
    ensures var entries := Entries(partitions, mountPoints, darwin);
            (forall i :: 0 <= i < |entries| ==> entries[i].usage.used <= entries[i].usage.total)
            && Expected(entries, darwin, Total) < TWO_64 ==>
              && totalBytes == Expected(entries, darwin, Total) && usedBytes == Expected(entries, darwin, Used)
              && usedBytes <= totalBytes && freeBytes == totalBytes - usedBytes
  {
    totalBytes, usedBytes := SumPartitions(partitions, mountPoints, darwin);
    usagePercent := Percent(usedBytes, totalBytes);
    freeBytes := Sub64(totalBytes, usedBytes);
    ghost var entries := Entries(partitions, mountPoints, darwin);
    if (forall i :: 0 <= i < |entries| ==> entries[i].usage.used <= entries[i].usage.total)
       && Expected(entries, darwin, Total) < TWO_64 {
      FittingTotals(entries, darwin);
    }
  }
}
