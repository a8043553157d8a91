/**
 * The page scheduler shared by both converters: a FIFO queue of page
 * descriptors and the set of ids already exported. Each dequeued page whose
 * id has not been exported is converted, its output file is written, and
 * only then is its id recorded, so no id is exported twice however often it
 * is discovered.
 */
module Scheduler {
  import opened Results

  /** A queued page: `{id, title, file_name}`. */
  datatype PageRef = PageRef(id: string, title: string, fileName: string)

  /** What converting one page gives: its file contents (or the error raised) and the pages it discovered. */
  datatype Conversion = Conversion(content: Result<string>, found: seq<PageRef>)

  /** One written output file, with the id of the page it was written for. */
  datatype Export = Export(id: string, fileName: string, content: string)

  /** Where a run ends: its outcome, the files written in order, and the final queue and seen-set. */
  datatype RunState = RunState(result: Result<()>, exports: seq<Export>, queue: seq<PageRef>, processed: set<string>)

  /** Converting a page, given the ids exported so far. */
  type ConvertFn = (PageRef, set<string>) --> Conversion

  /** `convert` is defined everywhere and succeeds only for pages whose id is in `universe`. */
  ghost predicate Converts(convert: ConvertFn, universe: set<string>) {
    forall page, seen :: convert.requires(page, seen) && (convert(page, seen).content.Ok? ==> page.id in universe)
  }

  /**
   * The scheduler loop: pop the front page; skip it when its id was already
   * exported; otherwise convert it (which appends the pages it discovers to
   * the queue), write its file and record its id. An error ends the run.
   */
  ghost function Schedule(convert: ConvertFn, universe: set<string>, queue: seq<PageRef>, processed: set<string>): RunState
    requires Converts(convert, universe)
    decreases |universe - processed|, |queue|
  {
    if queue == [] then RunState(Ok(()), [], [], processed)
    else if queue[0].id in processed then Schedule(convert, universe, queue[1..], processed)
    else
      var page := queue[0];
      var c := convert(page, processed);
      match c.content
      case Err(e) => RunState(Err(e), [], queue[1..] + c.found, processed)
      case Ok(text) =>
        assert universe - processed == (universe - (processed + {page.id})) + {page.id};
        var rest := Schedule(convert, universe, queue[1..] + c.found, processed + {page.id});
        rest.(exports := [Export(page.id, page.fileName, text)] + rest.exports)
  }

  /** A run state with the files `done` written before it. */
  function WithDone(done: seq<Export>, s: RunState): (r: RunState)
    ensures r.result == s.result && r.queue == s.queue && r.processed == s.processed
    ensures r.exports == done + s.exports
  {
    s.(exports := done + s.exports)
  }

  /** One step of the loop: a page already exported is dropped. */
  lemma ScheduleSkips(convert: ConvertFn, universe: set<string>, queue: seq<PageRef>, processed: set<string>)
    requires Converts(convert, universe)
    requires queue != [] && queue[0].id in processed
    ensures Schedule(convert, universe, queue, processed) == Schedule(convert, universe, queue[1..], processed)
  {
  }

  /** One step of the loop: a new page whose conversion raises ends the run with that error. */
  lemma ScheduleConvertFails(convert: ConvertFn, universe: set<string>, queue: seq<PageRef>, processed: set<string>, done: seq<Export>, c: Conversion)
    requires Converts(convert, universe)
    requires queue != [] && queue[0].id !in processed
    requires convert(queue[0], processed) == c && c.content.Err?
    ensures WithDone(done, Schedule(convert, universe, queue, processed)) == RunState(Err(c.content.error), done, queue[1..] + c.found, processed)
  {
    assert done + [] == done;
  }

  /**
   * One step of the loop: a new page converted without error has its file
   * written, then its id is recorded and the pages it found are queued.
   */
  lemma ScheduleConverts(convert: ConvertFn, universe: set<string>, queue: seq<PageRef>, processed: set<string>, done: seq<Export>, c: Conversion)
    requires Converts(convert, universe)
    requires queue != [] && queue[0].id !in processed
    requires convert(queue[0], processed) == c && c.content.Ok?
    ensures var page := queue[0];
      && |universe - (processed + {page.id})| < |universe - processed|
      && WithDone(done, Schedule(convert, universe, queue, processed))
         == WithDone(done + [Export(page.id, page.fileName, c.content.value)], Schedule(convert, universe, queue[1..] + c.found, processed + {page.id}))
  {
    var page := queue[0];
    assert page.id in universe;
    assert universe - processed == (universe - (processed + {page.id})) + {page.id};
    var rest := Schedule(convert, universe, queue[1..] + c.found, processed + {page.id});
    var e := Export(page.id, page.fileName, c.content.value);
    assert Schedule(convert, universe, queue, processed) == rest.(exports := [e] + rest.exports);
    assert done + ([e] + rest.exports) == (done + [e]) + rest.exports;
  }

  function Ids(pages: seq<PageRef>): set<string> {
    set i | 0 <= i < |pages| :: pages[i].id
  }

  function ExportedIds(exports: seq<Export>): set<string> {
    set i | 0 <= i < |exports| :: exports[i].id
  }

  /** The pages of `queue` whose id is not in `seen` and not earlier in `queue`, in queue order. */
  function FirstSeen(queue: seq<PageRef>, seen: set<string>): seq<PageRef>
    decreases |queue|
  {
    if queue == [] then []
    else if queue[0].id in seen then FirstSeen(queue[1..], seen)
    else [queue[0]] + FirstSeen(queue[1..], seen + {queue[0].id})
  }

  lemma {:induction false} FirstSeenAppend(a: seq<PageRef>, b: seq<PageRef>, seen: set<string>)
    ensures FirstSeen(a + b, seen) == FirstSeen(a, seen) + FirstSeen(b, seen + Ids(a))
    decreases |a|
  {
    if a == [] {
      assert a + b == b;
      assert Ids(a) == {};
      assert seen + Ids(a) == seen;
    } else {
      assert (a + b)[0] == a[0];
      assert (a + b)[1..] == a[1..] + b;
      IdsCons(a);
      if a[0].id in seen {
        FirstSeenAppend(a[1..], b, seen);
        assert seen + Ids(a[1..]) == seen + Ids(a);
      } else {
        FirstSeenAppend(a[1..], b, seen + {a[0].id});
        assert seen + {a[0].id} + Ids(a[1..]) == seen + Ids(a);
      }
    }
  }

  lemma IdsCons(a: seq<PageRef>)
    requires a != []
    ensures Ids(a) == {a[0].id} + Ids(a[1..])
  {
    forall x | x in Ids(a) ensures x in {a[0].id} + Ids(a[1..]) {
      var i :| 0 <= i < |a| && a[i].id == x;
      if i > 0 { assert a[1..][i - 1].id == x; }
    }
    forall x | x in Ids(a[1..]) ensures x in Ids(a) {
      var i :| 0 <= i < |a[1..]| && a[1..][i].id == x;
      assert a[i + 1].id == x;
    }
  }

  /** No id occurs twice in `exports`, and none is in `seen`. */
  ghost predicate ExportedOnce(exports: seq<Export>, seen: set<string>) {
    && (forall i, j :: 0 <= i < j < |exports| ==> exports[i].id != exports[j].id)
    && (forall i :: 0 <= i < |exports| ==> exports[i].id !in seen)
  }

  lemma ExportedOnceCons(e: Export, rest: seq<Export>, seen: set<string>)
    requires e.id !in seen && ExportedOnce(rest, seen + {e.id})
    ensures ExportedOnce([e] + rest, seen)
    ensures ExportedIds([e] + rest) == {e.id} + ExportedIds(rest)
  {
    var all := [e] + rest;
    forall i | 0 <= i < |all| ensures all[i].id !in seen {
      if i > 0 { assert all[i] == rest[i - 1]; }
    }
    forall i, j | 0 <= i < j < |all| ensures all[i].id != all[j].id {
      assert all[j] == rest[j - 1];
      if i > 0 { assert all[i] == rest[i - 1]; }
    }
    forall x | x in ExportedIds(all) ensures x in {e.id} + ExportedIds(rest) {
      var i :| 0 <= i < |all| && all[i].id == x;
      if i > 0 { assert rest[i - 1].id == x; }
    }
    forall x | x in ExportedIds(rest) ensures x in ExportedIds(all) {
      var i :| 0 <= i < |rest| && rest[i].id == x;
      assert all[i + 1].id == x;
    }
    assert all[0].id == e.id;
  }

  /**
   * Each page is exported at most once: the exported ids are pairwise
   * distinct and were not exported before the run; the final seen-set is
   * the initial one plus exactly the exported ids.
   */
  lemma {:induction false} ScheduleExportsOnce(convert: ConvertFn, universe: set<string>, queue: seq<PageRef>, processed: set<string>)
    requires Converts(convert, universe)
    ensures var r := Schedule(convert, universe, queue, processed);
      ExportedOnce(r.exports, processed) && r.processed == processed + ExportedIds(r.exports)
    decreases |universe - processed|, |queue|
  {
    var r := Schedule(convert, universe, queue, processed);
    if queue == [] {
      assert ExportedIds(r.exports) == {};
    } else if queue[0].id in processed {
      ScheduleExportsOnce(convert, universe, queue[1..], processed);
    } else {
      var page := queue[0];
      var c := convert(page, processed);
      if c.content.Err? {
        assert ExportedIds(r.exports) == {};
      } else {
        assert universe - processed == (universe - (processed + {page.id})) + {page.id};
        var p' := processed + {page.id};
        var rest := Schedule(convert, universe, queue[1..] + c.found, p');
        ScheduleExportsOnce(convert, universe, queue[1..] + c.found, p');
        var e := Export(page.id, page.fileName, c.content.value);
        assert r.exports == [e] + rest.exports;
        ExportedOnceCons(e, rest.exports, processed);
      }
    }
  }

  /**
   * A run that ends without error leaves the queue empty and every page of
   * the initial queue in the seen-set; no run forgets an id it started with.
   */
  lemma {:induction false} ScheduleDrains(convert: ConvertFn, universe: set<string>, queue: seq<PageRef>, processed: set<string>)
    requires Converts(convert, universe)
    ensures var r := Schedule(convert, universe, queue, processed);
      && processed <= r.processed
      && (r.result.Ok? ==> r.queue == [] && forall i :: 0 <= i < |queue| ==> queue[i].id in r.processed)
    decreases |universe - processed|, |queue|
  {
    if queue != [] {
      if queue[0].id in processed {
        ScheduleDrains(convert, universe, queue[1..], processed);
        var r := Schedule(convert, universe, queue[1..], processed);
        forall i | 0 <= i < |queue| && r.result.Ok? ensures queue[i].id in r.processed {
          if i > 0 { assert queue[i] == queue[1..][i - 1]; }
        }
      } else {
        var page := queue[0];
        var c := convert(page, processed);
        if c.content.Ok? {
          assert universe - processed == (universe - (processed + {page.id})) + {page.id};
          var q' := queue[1..] + c.found;
          ScheduleDrains(convert, universe, q', processed + {page.id});
          var r := Schedule(convert, universe, q', processed + {page.id});
          forall i | 0 <= i < |queue| && r.result.Ok? ensures queue[i].id in r.processed {
            if i > 0 { assert queue[i] == q'[i - 1]; }
          }
        }
      }
    }
  }

  /**
   * The queue is first in, first out: the files are written for the pages of
   * the initial queue, first occurrences only and in queue order, before
   * any page discovered during the run; a run without error writes all of them.
   */
  lemma {:induction false} ScheduleIsFifo(convert: ConvertFn, universe: set<string>, queue: seq<PageRef>, processed: set<string>)
    requires Converts(convert, universe)
    ensures var r := Schedule(convert, universe, queue, processed);
      var f := FirstSeen(queue, processed);
      && (forall i :: 0 <= i < |f| && i < |r.exports| ==> r.exports[i].id == f[i].id && r.exports[i].fileName == f[i].fileName)
      && (r.result.Ok? ==> |f| <= |r.exports|)
    decreases |universe - processed|, |queue|
  {
    if queue != [] {
      if queue[0].id in processed {
        ScheduleIsFifo(convert, universe, queue[1..], processed);
      } else {
        var page := queue[0];
        var c := convert(page, processed);
        if c.content.Ok? {
          assert universe - processed == (universe - (processed + {page.id})) + {page.id};
          var p' := processed + {page.id};
          var q' := queue[1..] + c.found;
          ScheduleIsFifo(convert, universe, q', p');
          FirstSeenAppend(queue[1..], c.found, p');
          var rest := Schedule(convert, universe, q', p');
          var r := Schedule(convert, universe, queue, processed);
          var f := FirstSeen(queue, processed);
          var g := FirstSeen(queue[1..], p');
          assert f == [page] + g;
          assert r.exports == [Export(page.id, page.fileName, c.content.value)] + rest.exports;
          forall i | 0 <= i < |f| && i < |r.exports|
            ensures r.exports[i].id == f[i].id && r.exports[i].fileName == f[i].fileName
          {
            if i > 0 {
              assert f[i] == g[i - 1] == FirstSeen(q', p')[i - 1];
              assert r.exports[i] == rest.exports[i - 1];
            }
          }
        }
      }
    }
  }

  /**
   * What walking a list of blocks yields, in both converters: the markdown
   * (or the error raised) and the pages queued on the way, in order.
   */
  datatype Walked = Walked(out: Result<string>, found: seq<PageRef>)

  function Prepend(s: string, r: Result<string>): Result<string> {
    match r
    case Ok(t) => Ok(s + t)
    case Err(e) => Err(e)
  }

  /** The rest of a walk, after `md` was produced and `found` queued. */
  function Continue(md: string, found: seq<PageRef>, w: Walked): Walked {
    Walked(Prepend(md, w.out), found + w.found)
  }

  lemma QueueStep(before: seq<PageRef>, found: seq<PageRef>, more: seq<PageRef>)
    ensures before + found + more == before + (found + more)
  {
  }

  lemma ContinueNothing(w: Walked)
    ensures Continue("", [], w) == w
  {
    match w.out {
      case Ok(t) => assert "" + t == t;
      case Err(_) =>
    }
    assert [] + w.found == w.found;
  }
}
