// The limiter over its mutable buffers: each key has its own, compacted in place and
// grown when full.

module LimiterBuffers {
  import opened RateLimiting

  // A prefix of a buffer, as Go slices are.
  datatype Slice = Slice(buf: array<int>, len: nat)

  lemma {:induction false} FreshSome(list: seq<int>, cutoff: int)
    ensures Fresh(list, cutoff) != [] <==> exists i :: 0 <= i < |list| && list[i] > cutoff
  {
    if list != [] {
      var n := |list| - 1;
      FreshSome(list[..n], cutoff);
      if exists i :: 0 <= i < |list| && list[i] > cutoff {
        var i :| 0 <= i < |list| && list[i] > cutoff;
        assert i < n ==> list[..n][i] > cutoff;
      }
    }
  }

  // kept = list[:0], then the fresh hits are written over the stale ones.
  method Compact(a: array<int>, n: nat, cutoff: int) returns (m: nat)
    requires n <= a.Length
    modifies a
    ensures m <= n && a[..m] == Fresh(old(a[..n]), cutoff)
  {
    ghost var was := a[..n];
    m := 0;
    for i := 0 to n
      invariant m <= i && a[..m] == Fresh(was[..i], cutoff)
      invariant forall k :: i <= k < n ==> a[k] == was[k]
    {
      assert was[..i + 1][..i] == was[..i];
      if a[i] > cutoff {
        a[m] := a[i];
        m := m + 1;
      }
    }
    assert was[..n] == was;
  }

  method Append(s: Slice, t: int) returns (r: Slice)
    requires s.len <= s.buf.Length
    modifies s.buf
    ensures r.len == s.len + 1 <= r.buf.Length && r.buf[..r.len] == old(s.buf[..s.len]) + [t]
    ensures r.buf == s.buf || fresh(r.buf)
  {
    var buf := s.buf;
    ghost var was := s.buf[..s.len];
    if s.len == buf.Length {
      buf := new int[2 * s.len + 1];
      for i := 0 to s.len
        invariant s.buf[..s.len] == was && buf[..i] == was[..i]
      {
        buf[i] := s.buf[i];
      }
    }
    assert buf[..s.len] == was;
    buf[s.len] := t;
    r := Slice(buf, s.len + 1);
  }

  method HasFresh(s: Slice, cutoff: int) returns (live: bool)
    requires s.len <= s.buf.Length
    ensures live <==> Live(s, cutoff)
  {
    FreshSome(s.buf[..s.len], cutoff);
    for i := 0 to s.len
      invariant forall k :: 0 <= k < i ==> s.buf[k] <= cutoff
    {
      if s.buf[i] > cutoff {
        assert s.buf[..s.len][i] > cutoff;
        return true;
      }
    }
    live := false;
  }

  // Every slice lies within its buffer, and the buffers are among these.
  ghost predicate Sized(hits: map<string, Slice>, bufs: set<array<int>>) {
    forall k :: k in hits ==> hits[k].buf in bufs && hits[k].len <= hits[k].buf.Length
  }

  // The contents of every key's buffer.
  ghost function Lists(hits: map<string, Slice>, bufs: set<array<int>>): map<string, seq<int>>
    requires Sized(hits, bufs)
    reads bufs
  {
    map k | k in hits :: hits[k].buf[..hits[k].len]
  }

  ghost predicate Live(list: Slice, cutoff: int)
    requires list.len <= list.buf.Length
    reads list.buf
  {
    Fresh(list.buf[..list.len], cutoff) != []
  }

  lemma ListsSwept(was: map<string, Slice>, now: map<string, Slice>, bufs: set<array<int>>, cutoff: int)
    requires Sized(was, bufs) && Sized(now, bufs)
    requires forall k :: k in now <==> k in was && Live(was[k], cutoff)
    requires forall k :: k in now ==> now[k] == was[k]
    ensures Lists(now, bufs) == Swept(Lists(was, bufs), cutoff)
  {
  }

  // No two keys share a buffer.
  predicate Apart(hits: map<string, Slice>) {
    forall j, k :: j in hits && k in hits && j != k ==> hits[j].buf != hits[k].buf
  }

  lemma StaysApart(was: map<string, Slice>, now: map<string, Slice>)
    requires Apart(was) && forall k :: k in now ==> k in was && now[k] == was[k]
    ensures Apart(now)
  {
  }

  lemma ApartWith(hits: map<string, Slice>, key: string, list: Slice)
    requires Apart(hits) && forall k :: k in hits && k != key ==> hits[k].buf != list.buf
    ensures Apart(hits[key := list])
  {
  }

  class RateLimiter {
    const window: int
    const max: int
    var hits: map<string, Slice>
    var calls: nat
    ghost var bufs: set<array<int>>

    ghost predicate Valid()
      reads this
    {
      Sized(hits, bufs) && Apart(hits)
    }

    ghost function View(): Limiter
      reads this, bufs
      requires Valid()
    {
      Limiter(Lists(hits, bufs), calls)
    }

    constructor (span: int, budget: int)
      ensures Valid() && fresh(bufs) && window == span && max == budget && View() == Limiter(map[], 0)
    {
      window, max, hits, calls, bufs := span, budget, map[], 0, {};
    }

    // Drops every key without a fresh hit.
    method Sweep(cutoff: int)
      requires Valid()
      modifies this`hits
      ensures Valid() && View() == Limiter(Swept(old(View()).hits, cutoff), calls)
    {
      ghost var was := hits;
      var keys := hits.Keys;
      while keys != {}
        invariant keys <= was.Keys
        invariant forall k :: k in hits <==> k in was && (k in keys || Live(was[k], cutoff))
        invariant forall k :: k in hits ==> hits[k] == was[k]
        decreases |keys|
      {
        var k :| k in keys;
        var live := HasFresh(hits[k], cutoff);
        if !live {
          hits := hits - {k};
        }
        keys := keys - {k};
      }
      StaysApart(was, hits);
      ListsSwept(was, hits, bufs, cutoff);
    }

    method Count(cutoff: int)
      requires Valid()
      modifies this`hits, this`calls
      ensures Valid() && View() == Counted(old(View()), cutoff)
    {
      ghost var before := View();
      calls := calls + 1;
      assert View() == before.(calls := before.calls + 1);
      if calls >= SWEEP_EVERY {
        calls := 0;
        assert View() == Limiter(before.hits, 0);
        Sweep(cutoff);
      }
    }

    // The list of a key, with its stale hits compacted away.
    method FreshList(key: string, cutoff: int) returns (kept: Slice)
      requires Valid()
      modifies bufs
      ensures Valid() && kept.len <= kept.buf.Length
      ensures if key in hits then kept.buf == hits[key].buf else fresh(kept.buf)
      ensures kept.buf[..kept.len] == Fresh(Of(old(View()).hits, key), cutoff)
      ensures forall k :: k in hits && k != key ==> hits[k].buf[..hits[k].len] == old(hits[k].buf[..hits[k].len])
    {
      var list;
      if key in hits {
        list := hits[key];
      } else {
        var empty := new int[0];
        list := Slice(empty, 0);
      }
      assert list.buf[..list.len] == Of(View().hits, key);
      var m := Compact(list.buf, list.len, cutoff);
      kept := Slice(list.buf, m);
    }

    // Stores a list no other key uses.
    method Store(key: string, list: Slice)
      requires Valid() && list.len <= list.buf.Length
      requires forall k :: k in hits && k != key ==> hits[k].buf != list.buf
      modifies this`hits, this`bufs
      ensures Valid() && bufs == old(bufs) + {list.buf}
      ensures View() == old(View()).(hits := old(View()).hits[key := list.buf[..list.len]])
    {
      ApartWith(hits, key, list);
      hits, bufs := hits[key := list], bufs + {list.buf};
    }

    // The key's new list: its fresh hits, and this one when the budget allows.
    method Admit(key: string, now: int) returns (kept: Slice, ok: bool)
      requires Valid()
      modifies bufs
      ensures Valid() && kept.len <= kept.buf.Length
      ensures fresh(kept.buf) || (key in hits && kept.buf == hits[key].buf)
      ensures var list := Fresh(Of(old(View()).hits, key), now - window);
              && ok == (|list| < max)
              && kept.buf[..kept.len] == if ok then list + [now] else list
      ensures forall k :: k in hits && k != key ==> hits[k].buf[..hits[k].len] == old(hits[k].buf[..hits[k].len])
    {
      kept := FreshList(key, now - window);
      ok := kept.len < max;
      if ok {
        kept := Append(kept, now);
      }
    }

    // Replacing one key's list gives the same limiter, whatever that list was.
    lemma OthersKept(key: string, was: map<string, seq<int>>, list: seq<int>)
      requires Valid() && was.Keys == hits.Keys
      requires forall k :: k in hits && k != key ==> hits[k].buf[..hits[k].len] == was[k]
      ensures View().hits[key := list] == was[key := list]
    {
    }

    method AllowHit(key: string, now: int) returns (ok: bool)
      requires Valid()
      modifies this, bufs
      ensures Valid() && fresh(bufs - old(bufs))
      ensures (View(), ok) == Allow(old(View()), key, now, window, max)
    {
      Count(now - window);
      ghost var counted := View();
      var kept;
      kept, ok := Admit(key, now);
      OthersKept(key, counted.hits, kept.buf[..kept.len]);
      Store(key, kept);
    }

    method ForgetKey(key: string)
      requires Valid()
      modifies this`hits
      ensures Valid() && View() == Forget(old(View()), key)
    {
      hits := hits - {key};
    }
  }
}
