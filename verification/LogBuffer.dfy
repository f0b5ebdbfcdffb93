/**
 The live-log ring buffer (app/middleware/request_logging.py): entries are
 appended on the right and evicted from the left until both the entry bound and
 the byte bound hold; the byte count is maintained incrementally.

 The class keeps its whole append history as a ghost. Its invariant is the
 simple specification: the buffer is the longest suffix of the history that
 fits both bounds.
 */
module LogBuffer {
  import opened Options

  datatype Entry = Entry(requestId: string, payload: string, size: nat)

  /** What an entry looks like once its private size is stripped. */
  datatype Public = Public(requestId: string, payload: string)

  /** The server runs with 1000 entries and 48 MiB. */
  datatype Bounds = Bounds(entries: nat, bytes: nat)

  function Bytes(s: seq<Entry>): nat {
    if s == [] then 0 else s[0].size + Bytes(s[1..])
  }

  predicate Fits(bounds: Bounds, s: seq<Entry>) {
    |s| <= bounds.entries && Bytes(s) <= bounds.bytes
  }

  /** Drop from the left until the rest fits. */
  function Evicted(bounds: Bounds, s: seq<Entry>): seq<Entry> {
    if s == [] || Fits(bounds, s) then s else Evicted(bounds, s[1..])
  }

  lemma {:induction false} BytesAppend(s: seq<Entry>, t: seq<Entry>)
    ensures Bytes(s + t) == Bytes(s) + Bytes(t)
  {
    if s == [] {
      assert s + t == t;
    } else {
      assert (s + t)[1..] == s[1..] + t;
      BytesAppend(s[1..], t);
    }
  }

  /** Bytes adds up the sizes. */
  lemma {:induction false} BytesIsSum(s: seq<Entry>, e: Entry)
    ensures Bytes([]) == 0 && Bytes(s + [e]) == Bytes(s) + e.size
  {
    BytesAppend(s, [e]);
    assert Bytes([e]) == e.size + Bytes([e][1..]);
  }

  /** The buffer is the longest suffix of the history that fits both bounds. */
  ghost predicate LongestFit(bounds: Bounds, history: seq<Entry>, buffer: seq<Entry>) {
    && |buffer| <= |history|
    && buffer == history[|history| - |buffer|..]
    && |buffer| <= bounds.entries && Bytes(buffer) <= bounds.bytes
    && forall k :: 0 <= k < |history| - |buffer| ==>
         |history| - k > bounds.entries || Bytes(history[k..]) > bounds.bytes
  }

  lemma {:induction false} EvictedIsLongestFit(bounds: Bounds, s: seq<Entry>)
    ensures LongestFit(bounds, s, Evicted(bounds, s))
  {
    if s != [] && !Fits(bounds, s) {
      EvictedIsLongestFit(bounds, s[1..]);
      var e := Evicted(bounds, s[1..]);
      forall k | 0 <= k < |s| - |e|
        ensures !Fits(bounds, s[k..])
      {
        if k != 0 {
          assert s[k..] == s[1..][k - 1..];
        }
      }
    }
  }

  /** Appending to the fitting suffix and evicting gives the fitting suffix of the longer
      history: what was evicted before could never come back. */
  lemma AppendRefits(bounds: Bounds, history: seq<Entry>, buffer: seq<Entry>, e: Entry, next: seq<Entry>)
    requires LongestFit(bounds, history, buffer) && LongestFit(bounds, buffer + [e], next)
    ensures LongestFit(bounds, history + [e], next)
  {
    var h, b := history + [e], buffer + [e];
    var d := |history| - |buffer|;
    assert h[d..] == b;
    assert next == b[|b| - |next|..] == h[|h| - |next|..];
    forall k | 0 <= k < |h| - |next|
      ensures !Fits(bounds, h[k..])
    {
      if k < d {
        assert h[k..] == history[k..] + [e];
        BytesAppend(history[k..], [e]);
        assert !Fits(bounds, history[k..]);
      } else {
        assert h[k..] == b[k - d..];
      }
    }
  }

  /** The longest fitting suffix is unique. */
  lemma LongestFitIsUnique(bounds: Bounds, history: seq<Entry>, x: seq<Entry>, y: seq<Entry>)
    requires LongestFit(bounds, history, x) && LongestFit(bounds, history, y)
    ensures x == y
  {
  }

  /** An entry that alone exceeds the byte budget empties the buffer. */
  lemma OversizedEntryEmptiesBuffer(bounds: Bounds, history: seq<Entry>, e: Entry, buffer: seq<Entry>)
    requires e.size > bounds.bytes && LongestFit(bounds, history + [e], buffer)
    ensures buffer == []
  {
    var h := history + [e];
    var k := |h| - |buffer|;
    if k < |h| {
      assert buffer == history[k..] + [e];
      BytesAppend(history[k..], [e]);
    }
  }

  class Buffer {
    const bounds: Bounds
    var entries: seq<Entry>
    var bytes: int
    ghost var history: seq<Entry>

    ghost predicate Valid()
      reads this
    {
      bytes == Bytes(entries) && LongestFit(bounds, history, entries)
    }

    constructor (bounds: Bounds)
      ensures Valid() && history == [] && entries == [] && this.bounds == bounds
    {
      this.bounds := bounds;
      entries, bytes, history := [], 0, [];
    }

    /** _buffer_append */
    method Append(e: Entry)
      requires Valid()
      modifies this
      ensures Valid() && history == old(history) + [e]
    {
      BytesAppend(entries, [e]);
      entries := entries + [e];
      bytes := bytes + e.size;
      Evict();
      history := history + [e];
      EvictedIsLongestFit(bounds, old(entries) + [e]);
      AppendRefits(bounds, old(history), old(entries), e, entries);
    }

    /** The eviction loop of the append. */
    method Evict()
      requires bytes == Bytes(entries)
      modifies this`entries, this`bytes
      ensures entries == Evicted(bounds, old(entries)) && bytes == Bytes(entries)
    {
      while entries != [] && (|entries| > bounds.entries || bytes > bounds.bytes)
        invariant bytes == Bytes(entries)
        invariant Evicted(bounds, entries) == Evicted(bounds, old(entries))
        decreases |entries|
      {
        bytes := bytes - entries[0].size;
        entries := entries[1..];
      }
    }

    /** get_recent_logs: newest first. A negative limit drops from the old end, as a slice does. */
    method Recent(limit: int) returns (r: seq<Public>)
      requires Valid()
      ensures |r| == if limit < 0 then (if |entries| + limit < 0 then 0 else |entries| + limit)
                     else if limit < |entries| then limit else |entries|
      ensures forall i :: 0 <= i < |r| ==>
                var e := history[|history| - 1 - i]; r[i] == Public(e.requestId, e.payload)
    {
      var stop := if limit < 0 then |entries| + limit else if limit < |entries| then limit else |entries|;
      r := [];
      while |r| < stop
        invariant 0 <= |r| <= |entries|
        invariant stop < 0 ==> r == []
        invariant stop >= 0 ==> |r| <= stop
        invariant forall i :: 0 <= i < |r| ==>
                    var e := entries[|entries| - 1 - i]; r[i] == Public(e.requestId, e.payload)
      {
        var e := entries[|entries| - 1 - |r|];
        r := r + [Public(e.requestId, e.payload)];
      }
    }

    /** get_log_by_request_id: the oldest retained entry with that id. */
    method Find(requestId: string) returns (r: Option<Public>)
      requires Valid()
      ensures r.None? <==> forall e :: e in entries ==> e.requestId != requestId
      ensures r.Some? ==> exists k :: 0 <= k < |entries| && entries[k].requestId == requestId
                                      && r.value == Public(requestId, entries[k].payload)
                                      && forall j :: 0 <= j < k ==> entries[j].requestId != requestId
    {
      for i := 0 to |entries|
        invariant forall j :: 0 <= j < i ==> entries[j].requestId != requestId
      {
        if entries[i].requestId == requestId {
          return Some(Public(requestId, entries[i].payload));
        }
      }
      return None;
    }
  }
}
