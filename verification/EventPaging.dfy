/**
Voucher events by page, newest first: the logs are filtered by time in place, a page is
cut from the end, and its logs are turned round and parsed.
*/
module EventPaging {
  import opened Arithmetic
  import opened Wrappers

  /** A log, as far as paging looks into it: its block and what it parses to, if it does. */
  datatype Log = Log(block: nat, event: Option<string>)

  /** A block's timestamp; 0 when it could not be read. */
  type Times = nat -> nat

  /** An event is left out only when it is known to be older. */
  predicate Recent(times: Times, since: nat, l: Log) {
    times(l.block) == 0 || times(l.block) >= since
  }

  function Filter(s: seq<Log>, keep: Log -> bool): (r: seq<Log>)
    ensures |r| <= |s|
  {
    if s == [] then [] else Filter(s[..|s| - 1], keep) + if keep(s[|s| - 1]) then [s[|s| - 1]] else []
  }

  /** The events of some logs, in the order of the logs, without those that do not parse. */
  function Parsed(s: seq<Log>): seq<string> {
    if s == [] then [] else Parsed(s[..|s| - 1]) + if s[|s| - 1].event.Some? then [s[|s| - 1].event.value] else []
  }

  function Reverse(s: seq<Log>): (r: seq<Log>)
    ensures |r| == |s| && forall i | 0 <= i < |s| :: r[i] == s[|s| - 1 - i]
  {
    seq(|s|, i requires 0 <= i < |s| => s[|s| - 1 - i])
  }

  lemma FilterSnoc(s: seq<Log>, l: Log, keep: Log -> bool)
    ensures Filter(s + [l], keep) == Filter(s, keep) + if keep(l) then [l] else []
  {
    assert (s + [l])[..|s|] == s;
  }

  lemma FilterNothing(keep: Log -> bool)
    ensures Filter([], keep) == []
  {
  }

  lemma ParsedSnoc(s: seq<Log>, l: Log)
    ensures Parsed(s + [l]) == Parsed(s) + if l.event.Some? then [l.event.value] else []
  {
    assert (s + [l])[..|s|] == s;
  }

  lemma {:induction false} ParsedAppend(s: seq<Log>, t: seq<Log>)
    ensures Parsed(s + t) == Parsed(s) + Parsed(t)
  {
    if t == [] {
      assert s + t == s;
    } else {
      var last := |t| - 1;
      assert s + t == s + t[..last] + [t[last]] && t == t[..last] + [t[last]];
      ParsedAppend(s, t[..last]);
      ParsedSnoc(s + t[..last], t[last]);
      ParsedSnoc(t[..last], t[last]);
    }
  }

  lemma {:induction false} AllParsed(s: seq<Log>)
    requires forall l | l in s :: l.event.Some?
    ensures |Parsed(s)| == |s| && forall i | 0 <= i < |s| :: Parsed(s)[i] == s[i].event.value
  {
    if s != [] {
      AllParsed(s[..|s| - 1]);
    }
  }

  // ---------------------------------------------------------------------------
  // The filter
  // ---------------------------------------------------------------------------

  /** What the filter keeps: the logs that are recent, each as often and in the order they came. */
  lemma {:induction false} FilterKeeps(s: seq<Log>, keep: Log -> bool, l: Log)
    ensures multiset(Filter(s, keep))[l] == if keep(l) then multiset(s)[l] else 0
  {
    if s != [] {
      FilterKeeps(s[..|s| - 1], keep, l);
      assert s == s[..|s| - 1] + [s[|s| - 1]];
    }
  }

  /** The filter, writing the kept logs over the front of the very array it reads. */
  method FilterInPlace(logs: array<Log>, times: Times, since: nat) returns (kept: nat)
    modifies logs
    ensures kept <= logs.Length
    ensures logs[..kept] == Filter(old(logs[..]), l => Recent(times, since, l))
    // Exactly the logs that are not known to be older are kept, each as often as it came.
    ensures forall l :: multiset(logs[..kept])[l] ==
                        if times(l.block) == 0 || times(l.block) >= since then multiset(old(logs[..]))[l] else 0
  {
    kept := 0;
    hide Filter, Recent;
    ghost var keep := l => Recent(times, since, l);
    ghost var all := logs[..];
    FilterNothing(keep);
    for i := 0 to logs.Length
      invariant kept <= i
      invariant logs[..kept] == Filter(all[..i], keep)
      invariant forall j | i <= j < logs.Length :: logs[j] == all[j]
    {
      var l := logs[i];
      assert all[..i + 1] == all[..i] + [l];
      FilterSnoc(all[..i], l, keep);
      if Recent(times, since, l) {
        logs[kept] := l;
        assert logs[..kept + 1] == logs[..kept] + [l];
        kept := kept + 1;
      }
    }
    assert all[..logs.Length] == all;
    forall l ensures multiset(logs[..kept])[l] ==
                     if times(l.block) == 0 || times(l.block) >= since then multiset(all)[l] else 0
    {
      FilterKeeps(all, keep, l);
      RecentIsNotKnownOlder(times, since, l);
    }
  }

  lemma RecentIsNotKnownOlder(times: Times, since: nat, l: Log)
    ensures Recent(times, since, l) <==> !(0 < times(l.block) < since)
  {
  }

  // ---------------------------------------------------------------------------
  // The pages
  // ---------------------------------------------------------------------------

  /** At most `size` logs from position `start` of the newest-first order on. */
  function Cut(s: seq<Log>, start: nat, size: nat): (r: seq<Log>)
    ensures |r| == if start >= |s| then 0 else Min(size, |s| - start)
    ensures forall i | 0 <= i < |r| :: r[i] == s[|s| - 1 - start - i]
  {
    if start >= |s| then [] else Reverse(s)[start..Min(start + size, |s|)]
  }

  /** The stretch of the newest-first order that a page is. */
  function Stretch(s: seq<Log>, page: nat, size: nat): seq<Log> {
    if size == 0 then Reverse(s) else Cut(s, page * size, size)
  }

  lemma CutIsATurnedSlice(s: seq<Log>, start: nat, end: nat, size: nat)
    requires start < end <= |s| && end == Min(start + size, |s|)
    ensures Reverse(s[|s| - end..|s| - start]) == Cut(s, start, size)
  {
  }

  /** The loop over a page's logs, from its newest to its oldest. */
  method ParseNewestFirst(pageLogs: seq<Log>) returns (events: seq<string>)
    ensures events == Parsed(Reverse(pageLogs))
  {
    events := [];
    ghost var done: seq<Log> := [];
    var i := |pageLogs|;
    while i > 0
      invariant 0 <= i <= |pageLogs|
      invariant done == Reverse(pageLogs)[..|pageLogs| - i]
      invariant events == Parsed(done)
    {
      i := i - 1;
      ParsedSnoc(done, pageLogs[i]);
      done := done + [pageLogs[i]];
      if pageLogs[i].event.Some? {
        events := events + [pageLogs[i].event.value];
      }
    }
    assert done == Reverse(pageLogs);
  }

  /** The logs from newest-first position `start` on, which 64 bits may have made negative. */
  method SliceOfPage(logs: seq<Log>, spare: seq<Log>, start: int, size: nat) returns (pageLogs: Option<seq<Log>>)
    requires |logs| + |spare| <= INT64_MAX / 2 && IsInt64(start) && start < |logs| && 0 < size <= INT64_MAX
    ensures start >= 0 && start + size <= INT64_MAX ==>
              pageLogs.Some? && Reverse(pageLogs.value) == Cut(logs, start, size)
    ensures start >= 0 && start + size > INT64_MAX ==> pageLogs == None
    ensures start < 0 ==>
              pageLogs == if -start > |spare| then None
                          else Some((logs + spare)[|logs| - Min(start + size, |logs|)..|logs| - start])
  {
    hide Reverse, Cut;
    var total := |logs|;
    var end := WrapInt64(start + size);
    if end > total {
      end := total;
    }
    var low, high := WrapInt64(total - end), WrapInt64(total - start);
    if !(0 <= low <= high <= total + |spare|) {
      return None;
    }
    if start >= 0 {
      CutIsATurnedSlice(logs, start, end, size);
      assert (logs + spare)[low..high] == logs[low..high];
    }
    return Some((logs + spare)[low..high]);
  }

  /**
   * GetVoucherEvents once the logs are at hand: the events of the page, and how many logs there are in all, or
   * nothing when the slice is out of bounds. `spare` is what the array of the logs has behind them; a slice may
   * reach into it.
   */
  method Page(logs: seq<Log>, spare: seq<Log>, page: nat, size: nat) returns (events: Option<seq<string>>, total: nat)
    requires |logs| + |spare| <= INT64_MAX / 2 && page <= INT64_MAX && size <= INT64_MAX
    ensures total == |logs|
    // While the product of page and size fits, it is the page of that number.
    ensures page * size <= INT64_MAX ==> events == Some(Parsed(Stretch(logs, page, size)))
    // In any case what 64 bits leave of the product is where the page starts, or how far behind the newest log.
    ensures var start := WrapInt64(page * size);
      && (start >= 0 && size > 0 ==>
            events == if start >= |logs| || start + size <= INT64_MAX then Some(Parsed(Cut(logs, start, size)))
                      else None)
      && (start < 0 ==>
            events == if -start > |spare| then None
                      else Some(Parsed(Reverse(
                                  (logs + spare)[|logs| - Min(start + size, |logs|)..|logs| - start]))))
  {
    total := |logs|;
    var pageLogs := logs;
    PageStart(page, size);
    if size > 0 {
      var start := WrapInt64(page * size);
      if start >= total {
        return Some([]), total;
      }
      var slice := SliceOfPage(logs, spare, start, size);
      if slice.None? {
        return None, total;
      }
      pageLogs := slice.value;
    }
    hide Parsed, Reverse, Cut, WrapInt64;
    var parsed := ParseNewestFirst(pageLogs);
    events := Some(parsed);
  }

  /** Every page but the first starts at least a page's length in. */
  lemma PageStart(page: nat, size: nat)
    ensures page * size >= 0 && (page > 0 ==> page * size >= size)
  {
    if page > 0 {
      Ordered(size, 1, page);
    }
  }

  /** The first `n` pages, one after the other. */
  function Pages(s: seq<Log>, n: nat, size: nat): seq<string> {
    if n == 0 then [] else Pages(s, n - 1, size) + Parsed(Stretch(s, n - 1, size))
  }

  /** One more page carries the newest-first order on from where it stood. */
  lemma CutContinues(s: seq<Log>, start: nat, size: nat)
    ensures Reverse(s)[..Min(start + size, |s|)] == Reverse(s)[..Min(start, |s|)] + Cut(s, start, size)
  {
  }

  lemma StretchIsACut(s: seq<Log>, page: nat, size: nat, start: nat)
    requires size > 0 && start == page * size
    ensures Stretch(s, page, size) == Cut(s, start, size)
  {
    hide Cut;
  }

  /** Where `n` pages end in the newest-first order. */
  function Reach(n: nat, size: nat): nat {
    if n == 0 then 0 else Reach(n - 1, size) + size
  }

  lemma {:induction false} ReachIsAProduct(n: nat, size: nat)
    ensures Reach(n, size) == n * size
  {
    if n > 0 {
      ReachIsAProduct(n - 1, size);
      assert n * size == (n - 1) * size + size;
    }
  }

  lemma NoPages(s: seq<Log>, size: nat)
    ensures Pages(s, 0, size) == Parsed(Reverse(s)[..Min(Reach(0, size), |s|)])
  {
    assert Reverse(s)[..0] == [];
  }

  lemma OneMorePage(s: seq<Log>, n: nat, size: nat)
    requires size > 0
    requires Pages(s, n, size) == Parsed(Reverse(s)[..Min(Reach(n, size), |s|)])
    ensures Pages(s, n + 1, size) == Parsed(Reverse(s)[..Min(Reach(n + 1, size), |s|)])
  {
    hide Cut, Parsed, Reverse, Stretch;
    var start := Reach(n, size);
    ReachIsAProduct(n, size);
    StretchIsACut(s, n, size, start);
    CutContinues(s, start, size);
    ParsedAppend(Reverse(s)[..Min(start, |s|)], Cut(s, start, size));
  }

  /** The first pages are the events of the newest logs, without gap or repetition. */
  lemma {:induction false} PagesAreAPrefix(s: seq<Log>, n: nat, size: nat)
    requires size > 0
    ensures Pages(s, n, size) == Parsed(Reverse(s)[..Min(Reach(n, size), |s|)])
  {
    hide Cut, Parsed, Reverse, Stretch, Pages, Reach;
    if n == 0 {
      NoPages(s, size);
    } else {
      PagesAreAPrefix(s, n - 1, size);
      OneMorePage(s, n - 1, size);
    }
  }

  /**
   * Once enough pages are read they are all the events, newest first, and every further page is empty; one
   * page of size 0 is the same.
   */
  lemma PagesAreAllEvents(s: seq<Log>, n: nat, size: nat)
    requires size > 0 && n * size >= |s|
    ensures Pages(s, n, size) == Parsed(Reverse(s)) == Parsed(Stretch(s, 0, 0))
    ensures Parsed(Stretch(s, n, size)) == []
  {
    PagesAreAPrefix(s, n, size);
    ReachIsAProduct(n, size);
    assert Reverse(s)[..|s|] == Reverse(s);
  }

  lemma CutEvents(s: seq<Log>, start: nat, size: nat, at: nat)
    requires forall l | l in s :: l.event.Some?
    ensures var events := Parsed(Cut(s, start, size));
      && |events| <= size
      && (at < |events| <==> at < size && start + at < |s|)
      && (at < |events| ==> events[at] == s[|s| - 1 - (start + at)].event.value)
  {
    hide Parsed;
    var cut := Cut(s, start, size);
    forall l | l in cut ensures l in s {
      var i :| 0 <= i < |cut| && cut[i] == l;
    }
    AllParsed(cut);
  }

  /** When every log parses, the event at a newest-first position is on one page, at one place. */
  lemma EveryEventIsOnOnePage(s: seq<Log>, size: nat, page: nat, start: nat, at: nat)
    requires size > 0 && start == page * size && forall l | l in s :: l.event.Some?
    ensures var events := Parsed(Stretch(s, page, size));
      && |events| <= size
      && (at < |events| <==> at < size && start + at < |s|)
      && (at < |events| ==> events[at] == s[|s| - 1 - (start + at)].event.value)
  {
    hide Parsed, Cut, Stretch;
    StretchIsACut(s, page, size, start);
    CutEvents(s, start, size, at);
  }
}
