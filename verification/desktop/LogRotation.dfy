/** The diagnostic log: `app.log` and two rotated files. Events are written whole, one line each;
    file operations succeed.
 */
module LogRotation {
  import opened Values

  type Bytes = seq<bv8>

  const LINE_FEED: bv8 := 10

  const MAX_LOG_BYTES: nat := 256 * 1024
  const MAX_EVENT_BYTES: nat := 32 * 1024

  /** The contents of app.log, app.log.1 and app.log.2, where they exist. */
  datatype Files = Files(app: Option<Bytes>, one: Option<Bytes>, two: Option<Bytes>)

  const NO_FILES := Files(None, None, None)

  function Content(file: Option<Bytes>): Bytes {
    if file.Some? then file.value else []
  }

  // --- What one write does ---

  /** If the incoming bytes do not fit, app.log.2 goes and the other two move up. */
  function Rotated(f: Files, incoming: nat): Files {
    if |Content(f.app)| + incoming <= MAX_LOG_BYTES then f else Files(None, f.app, f.one)
  }

  /** An event of at most 32 KiB is appended with a line feed, rotating first if it would not fit;
      a larger one is refused. */
  function Logged(f: Files, event: Bytes): Files {
    if |event| > MAX_EVENT_BYTES then f
    else
      var r := Rotated(f, |event| + 1);
      r.(app := Some(Content(r.app) + event + [LINE_FEED]))
  }

  class Logger {
    var app: Option<Bytes>
    var one: Option<Bytes>
    var two: Option<Bytes>

    function View(): Files
      reads this
    {
      Files(app, one, two)
    }

    constructor ()
      ensures View() == NO_FILES
    {
      app, one, two := None, None, None;
    }

    /** Delete the oldest file and rename the others, if the incoming bytes do not fit. */
    method Rotate(incoming: nat)
      modifies this
      ensures View() == Rotated(old(View()), incoming)
    {
      if |Content(app)| + incoming <= MAX_LOG_BYTES {
        return;
      }
      if two.Some? {
        two := None;
      }
      if one.Some? {
        two := one;
        one := None;
      }
      if app.Some? {
        one := app;
        app := None;
      }
    }

    method Write(event: Bytes) returns (ok: bool)
      modifies this
      ensures View() == Logged(old(View()), event) && (ok <==> |event| <= 32_768)
    {
      if |event| > MAX_EVENT_BYTES {
        return false;
      }
      Rotate(|event| + 1);
      app := Some(Content(app) + event + [LINE_FEED]);
      return true;
    }
  }

  // --- What is kept ---

  /** The files after a run of writes from an empty directory. */
  function After(events: seq<Bytes>): Files {
    if events == [] then NO_FILES else Logged(After(events[..|events| - 1]), events[|events| - 1])
  }

  /** The events that were accepted, in order. */
  function Accepted(events: seq<Bytes>): seq<Bytes> {
    if events == [] then [] else
      var last := events[|events| - 1];
      Accepted(events[..|events| - 1]) + (if |last| <= 32_768 then [last] else [])
  }

  function Text(events: seq<Bytes>): Bytes {
    if events == [] then [] else Text(events[..|events| - 1]) + events[|events| - 1] + [10]
  }

  /** `all`, cut at i, j and k: dropped, app.log.2, app.log.1 and app.log, in whole events. */
  ghost predicate CutAt(f: Files, all: seq<Bytes>, i: nat, j: nat, k: nat) {
    && i <= j <= k <= |all|
    && Content(f.two) == Text(all[i..j]) && Content(f.one) == Text(all[j..k]) && Content(f.app) == Text(all[k..])
    && |Content(f.two)| <= 262_144 && |Content(f.one)| <= 262_144 && |Content(f.app)| <= 262_144
    && (f.one.Some? ==> |Content(f.one)| > 229_375) && (f.two.Some? ==> |Content(f.two)| > 229_375)
    && (f.two.Some? ==> f.one.Some?) && (i > 0 ==> f.two.Some?)
    && (f.one.None? ==> j == k) && (f.two.None? ==> i == j)
  }

  lemma {:induction false} TextAppend(events: seq<Bytes>, e: Bytes)
    ensures Text(events + [e]) == Text(events) + e + [LINE_FEED]
  {
    assert (events + [e])[..|events|] == events;
  }

  /** Retained logs are a contiguous suffix. After any run of writes, app.log.2, app.log.1 and
      app.log hold the last accepted events, whole and in order, each at most 262,144 bytes; once
      anything was dropped, both rotated files hold more than 229,375 bytes. */
  lemma {:induction false} RetainedIsSuffix(events: seq<Bytes>) returns (i: nat, j: nat, k: nat)
    ensures CutAt(After(events), Accepted(events), i, j, k)
  {
    if events == [] {
      i, j, k := 0, 0, 0;
    } else {
      var most, e := events[..|events| - 1], events[|events| - 1];
      i, j, k := RetainedIsSuffix(most);
      if |e| <= MAX_EVENT_BYTES {
        i, j, k := OneMore(After(most), Accepted(most), e, i, j, k);
      } else {
        assert Accepted(events) == Accepted(most);
      }
    }
  }

  lemma OneMore(f: Files, all: seq<Bytes>, e: Bytes, i: nat, j: nat, k: nat) returns (i': nat, j': nat, k': nat)
    requires CutAt(f, all, i, j, k) && |e| <= MAX_EVENT_BYTES
    ensures CutAt(Logged(f, e), all + [e], i', j', k')
  {
    if |Content(f.app)| + |e| + 1 <= MAX_LOG_BYTES {
      OneMoreFits(f, all, e, i, j, k);
      i', j', k' := i, j, k;
    } else {
      OneMoreRotates(f, all, e, i, j, k);
      i', j', k' := j, k, |all|;
    }
  }

  lemma OneMoreFits(f: Files, all: seq<Bytes>, e: Bytes, i: nat, j: nat, k: nat)
    requires CutAt(f, all, i, j, k) && |e| <= MAX_EVENT_BYTES && |Content(f.app)| + |e| + 1 <= MAX_LOG_BYTES
    ensures CutAt(Logged(f, e), all + [e], i, j, k)
  {
    var all' := all + [e];
    assert all'[i..j] == all[i..j] && all'[j..k] == all[j..k] && all'[k..] == all[k..] + [e];
    TextAppend(all[k..], e);
  }

  lemma OneMoreRotates(f: Files, all: seq<Bytes>, e: Bytes, i: nat, j: nat, k: nat)
    requires CutAt(f, all, i, j, k) && |e| <= MAX_EVENT_BYTES && |Content(f.app)| + |e| + 1 > MAX_LOG_BYTES
    ensures CutAt(Logged(f, e), all + [e], j, k, |all|)
  {
    var all' := all + [e];
    assert all'[j..k] == all[j..k] && all'[k..|all|] == all[k..] && all'[|all|..] == [] + [e];
    TextAppend([], e);
  }

  lemma {:induction false} TextConcat(a: seq<Bytes>, b: seq<Bytes>)
    ensures Text(a + b) == Text(a) + Text(b)
  {
    if b == [] {
      assert a + b == a;
    } else {
      var most := b[..|b| - 1];
      TextConcat(a, most);
      var e := b[|b| - 1];
      TextAppend(a + most, e);
      assert a + b == (a + most) + [e];
      assert Text(a) + (Text(most) + e + [LINE_FEED]) == Text(a) + Text(most) + e + [LINE_FEED];
    }
  }

  /** In bytes: the three files together are the text of a suffix of the accepted events, and while
      anything is missing from it they hold at least 458,752 bytes. */
  lemma RetainedBytes(events: seq<Bytes>) returns (i: nat)
    ensures i <= |Accepted(events)|
    ensures var f := After(events);
            Content(f.two) + Content(f.one) + Content(f.app) == Text(Accepted(events)[i..])
    ensures i > 0 ==> |Text(Accepted(events)[i..])| >= 458_752
  {
    var all, j, k := Accepted(events), 0, 0;
    i, j, k := RetainedIsSuffix(events);
    TextConcat(all[i..j], all[j..k]);
    TextConcat(all[i..k], all[k..]);
    assert all[i..j] + all[j..k] == all[i..k] && all[i..k] + all[k..] == all[i..];
  }
}
