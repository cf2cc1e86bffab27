/** `ChatMemory` of model/memory.py: the in-memory `history` list and the
    operations on it. Loading and saving the JSON file, and reading the clock
    for the timestamp, are outside the model (the timestamp is a parameter). */
module Memory {
  import opened Common

  const DEFAULT_PROJECT := "default"

  /** One stored turn. `projectId` is `None` for an entry whose dictionary has
      no `project_id` key (possible for entries loaded from an older file). */
  datatype Entry = Entry(timestamp: string, user: string, message: string, projectId: Option<string>)

  /** `h.get('project_id', 'default')`. */
  function ProjectOf(e: Entry): string {
    if e.projectId.Some? then e.projectId.value else DEFAULT_PROJECT
  }

  /** `[h for h in history if h.get('project_id', 'default') == p]`. */
  function Filter(h: seq<Entry>, p: string): (r: seq<Entry>)
    ensures |r| <= |h|
    ensures forall e :: e in r ==> e in h && ProjectOf(e) == p
  {
    if h == [] then []
    else (if ProjectOf(h[0]) == p then [h[0]] else []) + Filter(h[1..], p)
  }

  /** `[h for h in history if h.get('project_id', 'default') != p]`. */
  function Without(h: seq<Entry>, p: string): (r: seq<Entry>)
    ensures |r| <= |h|
    ensures forall e :: e in r ==> e in h && ProjectOf(e) != p
  {
    if h == [] then []
    else (if ProjectOf(h[0]) != p then [h[0]] else []) + Without(h[1..], p)
  }

  /** Every entry of the project is kept: with the contract of `Filter`,
      an entry is in the result exactly when it is one of `p`'s. */
  lemma {:induction false} FilterMembers(h: seq<Entry>, p: string, e: Entry)
    requires e in h && ProjectOf(e) == p
    ensures e in Filter(h, p)
  {
    if e != h[0] {
      FilterMembers(h[1..], p, e);
    }
  }

  /** Every entry of another project is kept by `clear`. */
  lemma {:induction false} WithoutMembers(h: seq<Entry>, p: string, e: Entry)
    requires e in h && ProjectOf(e) != p
    ensures e in Without(h, p)
  {
    if e != h[0] {
      WithoutMembers(h[1..], p, e);
    }
  }

  lemma {:induction false} FilterAppend(a: seq<Entry>, b: seq<Entry>, p: string)
    ensures Filter(a + b, p) == Filter(a, p) + Filter(b, p)
  {
    if a != [] {
      var head := if ProjectOf(a[0]) == p then [a[0]] else [];
      assert (a + b)[0] == a[0] && (a + b)[1..] == a[1..] + b;
      calc {
        Filter(a + b, p);
        head + Filter(a[1..] + b, p);
        { FilterAppend(a[1..], b, p); }
        head + (Filter(a[1..], p) + Filter(b, p));
        (head + Filter(a[1..], p)) + Filter(b, p);
      }
    } else {
      assert a + b == b;
    }
  }

  lemma {:induction false} WithoutAppend(a: seq<Entry>, b: seq<Entry>, p: string)
    ensures Without(a + b, p) == Without(a, p) + Without(b, p)
  {
    if a != [] {
      var head := if ProjectOf(a[0]) != p then [a[0]] else [];
      assert (a + b)[0] == a[0] && (a + b)[1..] == a[1..] + b;
      WithoutAppend(a[1..], b, p);
      assert Without(a + b, p) == head + (Without(a[1..], p) + Without(b, p));
    } else {
      assert a + b == b;
    }
  }

  /** Filtering keeps the order of `history`: whatever it keeps before
      position `i` comes before the entry at `i` (if kept), which comes
      before whatever it keeps after. */
  lemma FilterAt(h: seq<Entry>, p: string, i: nat)
    requires i < |h|
    ensures Filter(h, p) == Filter(h[..i], p) + (if ProjectOf(h[i]) == p then [h[i]] else []) + Filter(h[i + 1..], p)
  {
    assert h == h[..i] + [h[i]] + h[i + 1..];
    FilterThree(h[..i], h[i], h[i + 1..], p);
  }

  lemma FilterThree(x: seq<Entry>, e: Entry, z: seq<Entry>, p: string)
    ensures Filter(x + [e] + z, p) == Filter(x, p) + (if ProjectOf(e) == p then [e] else []) + Filter(z, p)
  {
    FilterAppend(x + [e], z, p);
    FilterAppend(x, [e], p);
    FilterOne(e, p);
  }

  lemma FilterOne(e: Entry, p: string)
    ensures Filter([e], p) == if ProjectOf(e) == p then [e] else []
  {
    assert [e][1..] == [];
  }

  /** The same for the entries `clear` keeps. */
  lemma WithoutAt(h: seq<Entry>, p: string, i: nat)
    requires i < |h|
    ensures Without(h, p) == Without(h[..i], p) + (if ProjectOf(h[i]) != p then [h[i]] else []) + Without(h[i + 1..], p)
  {
    assert h == h[..i] + [h[i]] + h[i + 1..];
    WithoutThree(h[..i], h[i], h[i + 1..], p);
  }

  lemma WithoutThree(x: seq<Entry>, e: Entry, z: seq<Entry>, p: string)
    ensures Without(x + [e] + z, p) == Without(x, p) + (if ProjectOf(e) != p then [e] else []) + Without(z, p)
  {
    WithoutAppend(x + [e], z, p);
    WithoutAppend(x, [e], p);
    WithoutOne(e, p);
  }

  lemma WithoutOne(e: Entry, p: string)
    ensures Without([e], p) == if ProjectOf(e) != p then [e] else []
  {
    assert [e][1..] == [];
  }

  /** Every entry is either in the project or not: the two comprehensions
      split `history` between them. */
  lemma {:induction false} FilterWithoutSplit(h: seq<Entry>, p: string)
    ensures |Filter(h, p)| + |Without(h, p)| == |h|
  {
    if h != [] {
      FilterWithoutSplit(h[1..], p);
    }
  }

  /** Removing project `p` keeps every other project's entries, in order, and
      leaves none of `p`'s. */
  lemma {:induction false} WithoutKeepsOthers(h: seq<Entry>, p: string, q: string)
    ensures Filter(Without(h, p), q) == if q == p then [] else Filter(h, q)
  {
    if h != [] {
      WithoutKeepsOthers(h[1..], p, q);
      FilterAppend(if ProjectOf(h[0]) != p then [h[0]] else [], Without(h[1..], p), q);
    }
  }

  /** Python's `s[start:]` for a possibly negative `start`. */
  function PySliceFrom<T>(s: seq<T>, start: int): (r: seq<T>)
    ensures |r| <= |s| && r == s[|s| - |r|..]
    ensures 0 <= start <= |s| ==> |r| == |s| - start
    ensures -|s| <= start < 0 ==> |r| == -start
    ensures start > |s| ==> r == []
    ensures start < -|s| ==> r == s
  {
    var i := if start < 0 then (if start + |s| < 0 then 0 else start + |s|) else (if start > |s| then |s| else start);
    s[i..]
  }

  /** `len(f"{user}: {message}")`. */
  function MsgLen(e: Entry): nat {
    |e.user| + 2 + |e.message|
  }

  /** The characters of the lines `f"{user}: {message}"` of `s`, summed. */
  function TotalChars(s: seq<Entry>): nat {
    if s == [] then 0 else MsgLen(s[0]) + TotalChars(s[1..])
  }

  lemma TotalCharsCons(e: Entry, s: seq<Entry>)
    ensures TotalChars([e] + s) == MsgLen(e) + TotalChars(s)
  {
    assert ([e] + s)[1..] == s;
  }

  /** Taking the next older entry extends the window to the next suffix, and
      its length adds to the total. */
  lemma WindowGrow(f: seq<Entry>, context: seq<Entry>, i: nat)
    requires i < |f| && context == f[|f| - i..]
    ensures [f[|f| - 1 - i]] + context == f[|f| - (i + 1)..]
    ensures TotalChars([f[|f| - 1 - i]] + context) == MsgLen(f[|f| - 1 - i]) + TotalChars(context)
  {
    assert f[|f| - (i + 1)..] == [f[|f| - 1 - i]] + f[|f| - i..];
    TotalCharsCons(f[|f| - 1 - i], context);
  }

  /** The loop of `get_context_window` over the filtered entries. */
  method Window(filtered: seq<Entry>, maxTurns: int, maxChars: int) returns (context: seq<Entry>)
    ensures |context| <= |filtered| && context == filtered[|filtered| - |context|..]
    ensures context == [] || (|context| <= maxTurns && TotalChars(context) <= maxChars)
    ensures |context| < |filtered| ==>
              |context| >= maxTurns || TotalChars(context) + MsgLen(filtered[|filtered| - |context| - 1]) > maxChars
  {
    context := [];
    var totalChars := 0;
    var i := 0;
    while i < |filtered|
      invariant 0 <= i <= |filtered|
      invariant |context| == i && context == filtered[|filtered| - i..]
      invariant totalChars == TotalChars(context)
      invariant i == 0 || (i <= maxTurns && totalChars <= maxChars)
    {
      var entry := filtered[|filtered| - 1 - i];
      if |context| >= maxTurns || totalChars + MsgLen(entry) > maxChars {
        break;
      }
      WindowGrow(filtered, context, i);
      context := [entry] + context;
      totalChars := totalChars + MsgLen(entry);
      i := i + 1;
    }
  }

  class ChatMemory {
    var history: seq<Entry>

    /** `load()` from the file is replaced by the history it would read. */
    constructor (loaded: seq<Entry>)
      ensures history == loaded
    {
      history := loaded;
    }

    /** `add(user, message, project_id)`: one entry at the end. */
    method Add(user: string, message: string, projectId: string, timestamp: string)
      modifies this
      ensures history == old(history) + [Entry(timestamp, user, message, Some(projectId))]
      ensures Filter(history, projectId) == Filter(old(history), projectId) + [history[|history| - 1]]
      ensures forall q :: q != projectId ==> Filter(history, q) == Filter(old(history), q)
    {
      var e := Entry(timestamp, user, message, Some(projectId));
      FilterAppend(history, [e], projectId);
      forall q | q != projectId ensures Filter(history + [e], q) == Filter(history, q) {
        FilterAppend(history, [e], q);
      }
      history := history + [e];
    }

    /** `get_recent(n, project_id)`: `filtered[-n:]`. */
    function GetRecent(n: int, projectId: string): (r: seq<Entry>)
      reads this
      ensures var f := Filter(history, projectId);
              (n >= 1 ==> r == f[|f| - (if n < |f| then n else |f|)..]) &&
              (n == 0 ==> r == f) &&
              (n < 0 ==> r == f[(if -n < |f| then -n else |f|)..])
      ensures forall e :: e in r ==> e in history && ProjectOf(e) == projectId
    {
      PySliceFrom(Filter(history, projectId), -n)
    }

    /** `clear(project_id)`: everything when `None`, else that project only. */
    method Clear(projectId: Option<string>)
      modifies this
      ensures projectId.None? ==> history == []
      ensures projectId.Some? ==> history == Without(old(history), projectId.value)
      ensures projectId.Some? ==> Filter(history, projectId.value) == [] &&
                                  forall q :: q != projectId.value ==> Filter(history, q) == Filter(old(history), q)
    {
      if projectId.None? {
        history := [];
      } else {
        forall q ensures Filter(Without(history, projectId.value), q) ==
                         if q == projectId.value then [] else Filter(history, q) {
          WithoutKeepsOthers(history, projectId.value, q);
        }
        history := Without(history, projectId.value);
      }
    }

    /** `get_context_window(max_turns, max_chars, project_id)`: walks the
        project's entries newest first and stops at the first one that would
        break either bound; the result keeps the original order. */
    method GetContextWindow(maxTurns: int, maxChars: int, projectId: string) returns (context: seq<Entry>)
      ensures var f := Filter(history, projectId);
              |context| <= |f| && context == f[|f| - |context|..]
      ensures context == [] || (|context| <= maxTurns && TotalChars(context) <= maxChars)
      ensures var f := Filter(history, projectId);
              |context| < |f| ==>
                |context| >= maxTurns || TotalChars(context) + MsgLen(f[|f| - |context| - 1]) > maxChars
    {
      context := Window(Filter(history, projectId), maxTurns, maxChars);
    }
  }
}
