/** The do-while loop of the `snap` handler that pages through the holder
    listing: start with a null cursor and an empty list, fetch a page, append
    its `data`, adopt its `next_cursor`, and go round again while that cursor is
    truthy. Any failed request aborts the whole loop.

    The remote is a script of responses: the k-th request made receives
    `script[k]`, whatever cursor it carries. A request made after the script is
    used up fails with `NoResponse`; that outcome belongs to the model, not to
    the remote. */
module Pagination {
  import opened Api

  /** The outcome of the loop (the accumulated items, or the error that aborted
      it) together with the cursor sent by each request, in order. */
  datatype Fetch = Fetch(result: Result<seq<Item>, FetchError>, requests: seq<Cursor>)

  /** Prefixes the items and requests of earlier rounds to the rest of a run. */
  function Continue(items: seq<Item>, requests: seq<Cursor>, rest: Fetch): Fetch
  {
    Fetch(if rest.result.Ok? then Ok(items + rest.result.value) else rest.result,
          requests + rest.requests)
  }

  lemma ContinueAssoc(a: seq<Item>, b: seq<Item>, r: seq<Cursor>, s: seq<Cursor>, f: Fetch)
    ensures Continue(a, r, Continue(b, s, f)) == Continue(a + b, r + s, f)
  {
    assert r + (s + f.requests) == (r + s) + f.requests;
    if f.result.Ok? {
      assert a + (b + f.result.value) == (a + b) + f.result.value;
    }
  }

  lemma ContinueNothing(f: Fetch)
    ensures Continue([], [], f) == f
  {
    assert [] + f.requests == f.requests;
    if f.result.Ok? {
      assert [] + f.result.value == f.result.value;
    }
  }

  /** The specification of the loop: one round that sends `cursor`, then more
      rounds while the page's `next_cursor` is truthy. Every run makes at least
      one request, the first with the cursor it starts from, and a run that
      succeeds was answered every time. */
  function Walk(script: seq<Response>, cursor: Cursor): (f: Fetch)
    ensures 1 <= |f.requests| <= |script| + 1 && f.requests[0] == cursor
    ensures f.result.Ok? ==> |f.requests| <= |script|
    decreases |script|
  {
    if script == [] then Fetch(Err(NoResponse), [cursor])
    else match script[0]
      case Err(e) => Fetch(Err(e), [cursor])
      case Ok(page) =>
        if Truthy(page.nextCursor) then
          Continue(PageItems(page), [cursor], Walk(script[1..], page.nextCursor))
        else
          Fetch(Ok(PageItems(page)), [cursor])
  }

  /** The loop as the handler runs it, starting from a null cursor. */
  method FetchAll(script: seq<Response>) returns (result: Result<seq<Item>, FetchError>, requests: seq<Cursor>)
    ensures Fetch(result, requests) == Walk(script, Null)
  {
    var cursor := Null;
    var all: seq<Item> := [];
    var i := 0;
    requests := [];
    assert script[i..] == script;
    ContinueNothing(Walk(script, Null));
    while true
      invariant i <= |script|
      invariant Walk(script, Null) == Continue(all, requests, Walk(script[i..], cursor))
      decreases |script| - i
    {
      if i == |script| {
        result, requests := Err(NoResponse), requests + [cursor];
        return;
      }
      assert script[i..][0] == script[i] && script[i..][1..] == script[i + 1..];
      match script[i]
      case Err(e) =>
        result, requests := Err(e), requests + [cursor];
        return;
      case Ok(page) =>
        if Truthy(page.nextCursor) {
          ContinueAssoc(all, PageItems(page), requests, [cursor], Walk(script[i + 1..], page.nextCursor));
        }
        all, requests := all + PageItems(page), requests + [cursor];
        cursor := page.nextCursor;
        i := i + 1;
        if !Truthy(cursor) {
          result := Ok(all);
          return;
        }
    }
  }

  /** A run of pages the loop reads to the end: every cursor but the last is truthy. */
  predicate Chained(pages: seq<Page>)
  {
    |pages| >= 1 &&
    (forall k :: 0 <= k < |pages| - 1 ==> Truthy(pages[k].nextCursor)) &&
    !Truthy(pages[|pages| - 1].nextCursor)
  }

  /** The first request carries the starting cursor; each later request carries
      exactly the `next_cursor` of the response before it, which was a page
      whose cursor is truthy. */
  lemma {:induction false} RequestsFollowCursors(script: seq<Response>, cursor: Cursor)
    ensures Walk(script, cursor).requests[0] == cursor
    ensures forall j :: 0 <= j < |Walk(script, cursor).requests| - 1 ==>
      j < |script| && script[j].Ok? && Truthy(script[j].value.nextCursor) &&
      Walk(script, cursor).requests[j + 1] == script[j].value.nextCursor
    decreases |script|
  {
    if script != [] && script[0].Ok? && Truthy(script[0].value.nextCursor) {
      var next := script[0].value.nextCursor;
      RequestsFollowCursors(script[1..], next);
      var rs := Walk(script, cursor).requests;
      var gs := Walk(script[1..], next).requests;
      assert rs == [cursor] + gs;
      forall j | 0 <= j < |rs| - 1
        ensures j < |script| && script[j].Ok? && Truthy(script[j].value.nextCursor) &&
          rs[j + 1] == script[j].value.nextCursor
      {
        assert rs[j + 1] == gs[j];
        if j > 0 {
          assert script[1..][j - 1] == script[j];
        }
      }
    }
  }

  /** A chained run of pages, whatever follows it in the script, ends the loop
      after exactly one request per page: the result is every page's `data` in
      fetch order, with nothing reordered or dropped, and the requests carry the
      starting cursor followed by the cursors of all pages but the last. */
  lemma {:induction false} WalkCompletes(pages: seq<Page>, rest: seq<Response>, cursor: Cursor)
    requires Chained(pages)
    ensures Walk(Served(pages) + rest, cursor) ==
      Fetch(Ok(Flatten(pages)), [cursor] + NextCursors(pages[..|pages| - 1]))
    decreases |pages|
  {
    var script := Served(pages) + rest;
    assert script[0] == Ok(pages[0]);
    if |pages| == 1 {
      assert pages[1..] == [];
      assert Flatten(pages) == PageItems(pages[0]) + Flatten([]);
      assert Flatten(pages) == PageItems(pages[0]);
      assert pages[..0] == [];
      assert NextCursors(pages[..0]) == [];
      assert [cursor] + NextCursors(pages[..0]) == [cursor];
    } else {
      var ps := pages[1..];
      assert Truthy(pages[0].nextCursor);
      assert Chained(ps) by {
        forall k | 0 <= k < |ps| - 1 ensures Truthy(ps[k].nextCursor) {
          assert ps[k] == pages[k + 1];
        }
      }
      assert script[1..] == Served(ps) + rest;
      WalkCompletes(ps, rest, pages[0].nextCursor);
      var tail := NextCursors(ps[..|ps| - 1]);
      assert NextCursors(pages[..|pages| - 1]) == [pages[0].nextCursor] + tail;
    }
  }

  /** When every page served before `tail` has a truthy cursor and `tail` is
      used up or starts with a failed request, the loop fails with that error,
      however many pages succeeded before it; nothing it accumulated survives. */
  lemma {:induction false} WalkFails(pages: seq<Page>, tail: seq<Response>, cursor: Cursor)
    requires forall k :: 0 <= k < |pages| ==> Truthy(pages[k].nextCursor)
    requires tail == [] || tail[0].Err?
    ensures Walk(Served(pages) + tail, cursor) ==
      Fetch(Err(if tail == [] then NoResponse else tail[0].error), [cursor] + NextCursors(pages))
    decreases |pages|
  {
    var script := Served(pages) + tail;
    if pages == [] {
      assert script == tail;
    } else {
      var ps := pages[1..];
      assert script[0] == Ok(pages[0]);
      assert script[1..] == Served(ps) + tail;
      forall k | 0 <= k < |ps| ensures Truthy(ps[k].nextCursor) {
        assert ps[k] == pages[k + 1];
      }
      WalkFails(ps, tail, pages[0].nextCursor);
      assert NextCursors(pages) == [pages[0].nextCursor] + NextCursors(ps);
    }
  }

  /** Conversely, a loop that succeeds read a chained run of pages at the head
      of the script, and its result is their `data` in order. */
  lemma {:induction false} WalkOkInversion(script: seq<Response>, cursor: Cursor)
    requires Walk(script, cursor).result.Ok?
    ensures exists pages, rest :: (Chained(pages) && script == Served(pages) + rest &&
      Walk(script, cursor).result == Ok(Flatten(pages)))
    decreases |script|
  {
    var page := script[0].value;
    if Truthy(page.nextCursor) {
      var sub := Walk(script[1..], page.nextCursor);
      assert Walk(script, cursor) == Continue(PageItems(page), [cursor], sub);
      assert sub.result.Ok?;
      WalkOkInversion(script[1..], page.nextCursor);
      var ps, rest :| Chained(ps) && script[1..] == Served(ps) + rest && sub.result == Ok(Flatten(ps));
      var pages := [page] + ps;
      assert pages[1..] == ps;
      assert Served(pages) == [Ok(page)] + Served(ps);
      assert script == Served(pages) + rest;
      assert Chained(pages) by {
        forall k | 0 <= k < |pages| - 1 ensures Truthy(pages[k].nextCursor) {
          if k > 0 { assert pages[k] == ps[k - 1]; }
        }
      }
      assert Flatten(pages) == PageItems(page) + Flatten(ps);
      assert Walk(script, cursor).result == Ok(Flatten(pages));
    } else {
      var pages := [page];
      assert Served(pages) == [Ok(page)];
      assert script == Served(pages) + script[1..];
      assert pages[1..] == [];
      assert Flatten(pages) == PageItems(page) + Flatten([]);
      assert Flatten(pages) == PageItems(page);
      assert Chained(pages);
      assert Chained(pages) && script == Served(pages) + script[1..] &&
        Walk(script, cursor).result == Ok(Flatten(pages));
    }
  }

  /** A first page without a truthy cursor ends the loop after a single request. */
  lemma SinglePageOneRequest(page: Page, rest: seq<Response>)
    requires !Truthy(page.nextCursor)
    ensures Walk([Ok(page)] + rest, Null) == Fetch(Ok(PageItems(page)), [Null])
  {
    assert ([Ok(page)] + rest)[0] == Ok(page);
  }
}
