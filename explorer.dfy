/**
 * The block-explorer client of the sync pipeline: reading one Etherscan reply
 * (`fetchEtherscan`) and walking its pages (`fetchEtherscanPaginated`). The HTTP
 * call itself is an oracle: the model receives the decoded reply.
 */
module Explorer {
  import opened Wrappers
  import Text

  const ETHERSCAN_PAGE_SIZE: nat := 100
  const ETHERSCAN_MAX_PAGES: nat := 20

  /** The `result` field of an Etherscan envelope: a list, a text, or anything else. */
  datatype EtherscanResult<T> = ResultList(items: seq<T>) | ResultText(text: string) | ResultOther

  /** What the HTTP layer hands back: a failed response with its status, or a decoded envelope. */
  datatype EtherscanReply<T> =
    | HttpFailed(httpStatus: nat)
    | Envelope(status: string, message: string, result: EtherscanResult<T>)

  /** A status "0" whose message mentions "no transactions" (in any ASCII case) is an empty list. */
  predicate NoTransactions(message: string) {
    Text.Contains(Text.ToLower(message), "no transactions")
  }

  /** `[message, resultText].filter(Boolean).join(": ") || "Etherscan error"`. */
  function EtherscanErrorText(message: string, resultText: string): (e: string)
    ensures e != []
    ensures message != [] ==> |message| <= |e| && e[..|message|] == message
    ensures resultText != [] ==> |resultText| <= |e| && e[|e| - |resultText|..] == resultText
    ensures message == [] && resultText == [] ==> e == "Etherscan error"
  {
    if message != [] && resultText != [] then message + ": " + resultText
    else if message != [] then message
    else if resultText != [] then resultText
    else "Etherscan error"
  }

  /** `fetchEtherscan`: the rows of one reply, or the error it throws. */
  function ReadReply<T>(reply: EtherscanReply<T>): (r: Result<seq<T>, string>)
    ensures r.Ok? <==> reply.Envelope? && (reply.status != "0" || NoTransactions(reply.message))
    ensures r.Ok? && r.value != [] ==> reply.result.ResultList? && r.value == reply.result.items
    ensures r.Err? ==> r.error != []
    ensures reply.HttpFailed? ==> r == Err("Request failed: " + Text.NatToDigits(reply.httpStatus))
    // a status other than "0" yields the listed rows, and no rows when the result is not a list
    ensures reply.Envelope? && reply.status != "0" ==>
      r == Ok(if reply.result.ResultList? then reply.result.items else [])
    ensures reply.Envelope? && reply.status == "0" && NoTransactions(reply.message) ==> r == Ok([])
    ensures reply.Envelope? && reply.status == "0" && !NoTransactions(reply.message) ==>
      r == Err(EtherscanErrorText(reply.message, if reply.result.ResultText? then reply.result.text else ""))
  {
    match reply
    case HttpFailed(code) => Err("Request failed: " + Text.NatToDigits(code))
    case Envelope(status, message, result) =>
      if status == "0" then
        if NoTransactions(message) then Ok([])
        else Err(EtherscanErrorText(message, if result.ResultText? then result.text else ""))
      else if result.ResultList? then Ok(result.items)
      else Ok([])
  }

  /** One page request of `fetchEtherscanPaginated`: `fetchEtherscan` on the reply the explorer
      gives for that page. */
  function PageFetcher<T>(replyFor: (nat, nat) -> EtherscanReply<T>): (f: (nat, nat) -> Result<seq<T>, string>)
    ensures forall page, offset :: f(page, offset) == ReadReply(replyFor(page, offset))
  {
    (page: nat, offset: nat) => ReadReply(replyFor(page, offset))
  }

  // ---- pagination ----

  function Prepend<T>(prefix: seq<T>, rest: Result<seq<T>, string>): (r: Result<seq<T>, string>)
    ensures r.Ok? <==> rest.Ok?
    ensures r.Ok? ==> r.value == prefix + rest.value
    ensures r.Err? ==> r == rest
  {
    match rest
    case Ok(xs) => Ok(prefix + xs)
    case Err(e) => Err(e)
  }

  lemma PrependAssociative<T>(a: seq<T>, b: seq<T>, rest: Result<seq<T>, string>)
    ensures Prepend(a, Prepend(b, rest)) == Prepend(a + b, rest)
  {
    if rest.Ok? {
      assert a + (b + rest.value) == (a + b) + rest.value;
    }
  }

  /** A page with at least `pageSize` rows asks for the next one. */
  predicate FullPage<T>(chunk: Result<seq<T>, string>, pageSize: nat) {
    chunk.Ok? && |chunk.value| >= pageSize
  }

  /** The rows of pages `page..maxPages`, where `fetch(page, offset)` is one page request:
      a failed page fails the whole walk, a short page ends it. */
  function PagesFrom<T>(fetch: (nat, nat) -> Result<seq<T>, string>, pageSize: nat, maxPages: nat, page: nat)
    : Result<seq<T>, string>
    decreases if page <= maxPages then maxPages + 1 - page else 0
  {
    if page > maxPages then Ok([])
    else match fetch(page, pageSize)
      case Err(e) => Err(e)
      case Ok(chunk) =>
        if |chunk| < pageSize then Ok(chunk)
        else Prepend(chunk, PagesFrom(fetch, pageSize, maxPages, page + 1))
  }

  /** `fetchEtherscanPaginated(params, apiKey, { pageSize, maxPages, fetchPage })`.
      `requested` lists the pages asked for, in order. */
  method FetchPaginated<T>(fetch: (nat, nat) -> Result<seq<T>, string>, pageSize: nat, maxPages: nat)
    returns (r: Result<seq<T>, string>, ghost requested: seq<nat>)
    ensures r == PagesFrom(fetch, pageSize, maxPages, 1)
    ensures |requested| <= maxPages
    ensures forall i :: 0 <= i < |requested| ==> requested[i] == i + 1
    // page k + 1 is requested exactly when pages 1..k all came back full
    ensures forall i :: 0 <= i < |requested| - 1 ==> FullPage(fetch(requested[i], pageSize), pageSize)
    ensures 0 < |requested| < maxPages ==> !FullPage(fetch(|requested|, pageSize), pageSize)
    ensures maxPages > 0 ==> |requested| > 0
  {
    var results: seq<T> := [];
    requested := [];
    var page: nat := 1;
    ghost var all := PagesFrom(fetch, pageSize, maxPages, 1);
    if all.Ok? {
      assert [] + all.value == all.value;
    }
    while page <= maxPages
      invariant 1 <= page <= maxPages + 1
      invariant |requested| == page - 1
      invariant forall i :: 0 <= i < |requested| ==> requested[i] == i + 1
      invariant forall i :: 0 <= i < |requested| ==> FullPage(fetch(requested[i], pageSize), pageSize)
      invariant PagesFrom(fetch, pageSize, maxPages, 1) == Prepend(results, PagesFrom(fetch, pageSize, maxPages, page))
      decreases maxPages + 1 - page
    {
      var chunk := fetch(page, pageSize);
      requested := requested + [page];
      if chunk.Err? {
        r := Err(chunk.error);
        return;
      }
      assert PagesFrom(fetch, pageSize, maxPages, page)
          == if |chunk.value| < pageSize then Ok(chunk.value)
             else Prepend(chunk.value, PagesFrom(fetch, pageSize, maxPages, page + 1));
      PrependAssociative(results, chunk.value, PagesFrom(fetch, pageSize, maxPages, page + 1));
      results := results + chunk.value;
      if |chunk.value| < pageSize {
        r := Ok(results);
        return;
      }
      page := page + 1;
    }
    assert results + [] == results;
    r := Ok(results);
  }

  /** When every page comes back full, the walk stops at the page cap with
      `pageSize` rows per page. */
  lemma {:induction false} AllFullPagesReachCap<T>(fetch: (nat, nat) -> Result<seq<T>, string>,
                                                   pageSize: nat, maxPages: nat, page: nat)
    requires forall k :: page <= k <= maxPages ==> fetch(k, pageSize).Ok? && |fetch(k, pageSize).value| == pageSize
    ensures var r := PagesFrom(fetch, pageSize, maxPages, page);
      r.Ok? && |r.value| == (if page <= maxPages then maxPages + 1 - page else 0) * pageSize
    decreases if page <= maxPages then maxPages + 1 - page else 0
  {
    if page <= maxPages {
      AllFullPagesReachCap(fetch, pageSize, maxPages, page + 1);
    }
  }

  /** Pages after the first short or failed one are never read: two fetchers that agree
      up to it give the same result. */
  lemma {:induction false} PagesAfterShortPageIgnored<T>(f: (nat, nat) -> Result<seq<T>, string>,
                                                         g: (nat, nat) -> Result<seq<T>, string>,
                                                         pageSize: nat, maxPages: nat, page: nat, last: nat)
    requires page <= last && !FullPage(f(last, pageSize), pageSize)
    requires forall k :: page <= k <= last ==> f(k, pageSize) == g(k, pageSize)
    ensures PagesFrom(f, pageSize, maxPages, page) == PagesFrom(g, pageSize, maxPages, page)
    decreases last - page
  {
    if page <= maxPages && page < last && FullPage(f(page, pageSize), pageSize) {
      PagesAfterShortPageIgnored(f, g, pageSize, maxPages, page + 1, last);
    }
  }

  /** Two pages of size two, the second short: three rows, two requests. */
  method PaginationExample() {
    var fetch := (page: nat, offset: nat) =>
      if page == 1 then Ok(["a", "b"]) else if page == 2 then Ok(["c"]) else Ok([]);
    assert PagesFrom(fetch, 2, 5, 2) == Ok(["c"]);
    assert ["a", "b"] + ["c"] == ["a", "b", "c"];
    assert PagesFrom(fetch, 2, 5, 1) == Ok(["a", "b", "c"]);
    var r, requested := FetchPaginated(fetch, 2, 5);
    assert r == Ok(["a", "b", "c"]);
    assert FullPage(fetch(1, 2), 2) && !FullPage(fetch(2, 2), 2);
    assert requested[0] == 1;
    assert |requested| >= 2;
    assert requested[1] == 2;
    assert |requested| == 2;
    assert requested == [1, 2];
  }
}
