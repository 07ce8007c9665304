/** Values exchanged with the remote holder-listing API: cursors, holder records,
    pages and the outcome of one GET request. */
module Api {

  /** The success/failure wrapper used for every operation that can throw. */
  datatype Result<+T, +E> = Ok(value: T) | Err(error: E)

  datatype Option<+T> = None | Some(value: T)

  /** The page size sent as the `count` query parameter of every request. */
  const PageSize: nat := 100

  /** A `next_cursor` value as JavaScript sees it: `null`, absent (`undefined`)
      or a string token. */
  datatype Cursor = Null | Undefined | Token(text: string)

  /** JavaScript truthiness of a cursor: `null`, `undefined` and `""` are the
      falsy ones, and every other cursor keeps the loop going. */
  predicate Truthy(c: Cursor): (b: bool)
    ensures b <==> !(c == Null || c == Undefined || c == Token(""))
  {
    c.Token? && c.text != ""
  }

  /** One asset held by an address. Its content never matters to the report. */
  datatype Asset = Asset(unit: string, quantity: string)

  /** One element of a page's `data` array. A holder object may lack its
      `address` or its `assets` field; `NotAnObject` stands for an element that
      is `undefined` or `null`, on which reading `.assets` throws. */
  datatype Item =
    | Holder(address: Option<string>, assets: Option<seq<Asset>>)
    | NotAnObject

  /** The body of a successful response: `data` (possibly absent) and `next_cursor`. */
  datatype Page = Page(data: Option<seq<Item>>, nextCursor: Cursor)

  /** Why a request failed. `NoResponse` is not a failure of the remote: it
      marks a request made after the script of responses is used up. */
  datatype FetchError = NetworkError | HttpStatus(code: nat) | MalformedBody | NoResponse

  type Response = Result<Page, FetchError>

  /** What `allData.concat(response.data.data)` appends: the array's elements in
      order, or, when `data` is absent, the single value `undefined`. */
  function PageItems(p: Page): (items: seq<Item>)
    ensures p.data.Some? ==> items == p.data.value
    ensures p.data.None? ==> |items| == 1 && !items[0].Holder?
  {
    match p.data
    case Some(d) => d
    case None => [NotAnObject]
  }

  /** The elements appended by a run of pages, in page order: nothing for no
      pages, and the first page's elements come first. */
  function Flatten(pages: seq<Page>): (items: seq<Item>)
    ensures pages == [] ==> items == []
    ensures pages != [] ==> PageItems(pages[0]) <= items
  {
    if pages == [] then [] else PageItems(pages[0]) + Flatten(pages[1..])
  }

  /** The `next_cursor` of each page, in page order. */
  function NextCursors(pages: seq<Page>): (cs: seq<Cursor>)
    ensures |cs| == |pages|
    ensures forall k :: 0 <= k < |pages| ==> cs[k] == pages[k].nextCursor
  {
    if pages == [] then [] else [pages[0].nextCursor] + NextCursors(pages[1..])
  }

  /** The responses a remote gives when it serves these pages one after another. */
  function Served(pages: seq<Page>): (rs: seq<Response>)
    ensures |rs| == |pages|
    ensures forall k :: 0 <= k < |pages| ==> rs[k] == Ok(pages[k])
  {
    if pages == [] then [] else [Ok(pages[0])] + Served(pages[1..])
  }

  /** Flattening distributes over the concatenation of two runs of pages. */
  lemma {:induction false} FlattenAppend(a: seq<Page>, b: seq<Page>)
    ensures Flatten(a + b) == Flatten(a) + Flatten(b)
  {
    if a == [] {
      assert a + b == b;
    } else {
      assert (a + b)[1..] == a[1..] + b;
      FlattenAppend(a[1..], b);
    }
  }
}
