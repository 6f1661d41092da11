/**
 * The TikTok Shop finance client: statements are listed one payment status
 * at a time, following `next_page_token` from page to page, each statement
 * tagged with its shop and the shop's owner. The HTTP request (signing,
 * timestamp, transport) is the `fetch` parameter: it maps the query dict a
 * request is sent with to the reply.
 */
module TiktokFinance {
  import opened Json
  import Text

  datatype Shop = Shop(id: int, name: string, cipher: string, accessToken: string)

  datatype Owner = Owner(id: int, username: string)

  /** The query dict the caller passes in and the loop updates. */
  type Query = map<string, string>

  type Statement = map<string, Json>

  /** A reply: status code, body text, and from the JSON body `data.statements` and `data.next_page_token` (`[]` and `""` when absent). */
  datatype Response = Response(statusCode: nat, text: string, statements: seq<Statement>, nextPageToken: string)

  const PageToken := "page_token"
  const PaymentStatus := "payment_status"
  const Expired := "access token is expired"

  /** The loop stops on an expired token and on any reply other than 200. */
  predicate Stops(r: Response)
  {
    Text.Contains(r.text, Expired) || r.statusCode != 200
  }

  function OwnerJson(owner: Owner): Json
  {
    JObj([("id", JInt(owner.id)), ("username", JStr(owner.username))])
  }

  function ShopJson(shop: Shop): Json
  {
    JObj([("id", JInt(shop.id)), ("name", JStr(shop.name)), ("shop_cipher", JStr(shop.cipher)),
          ("access_token", JStr(shop.accessToken))])
  }

  /** A statement as the loop appends it: its `shop_owner` and `shop` set, everything else kept. */
  function Annotate(s: Statement, shop: Shop, owner: Owner): (r: Statement)
    ensures r.Keys == s.Keys + {"shop_owner", "shop"}
    ensures r["shop_owner"] == OwnerJson(owner) && r["shop"] == ShopJson(shop)
    ensures forall k :: k in s && k != "shop_owner" && k != "shop" ==> r[k] == s[k]
  {
    s["shop_owner" := OwnerJson(owner)]["shop" := ShopJson(shop)]
  }

  function AnnotateAll(ss: seq<Statement>, shop: Shop, owner: Owner): (r: seq<Statement>)
    ensures |r| == |ss| && forall k :: 0 <= k < |ss| ==> r[k] == Annotate(ss[k], shop, owner)
  {
    if ss == [] then [] else AnnotateAll(ss[..|ss| - 1], shop, owner) + [Annotate(ss[|ss| - 1], shop, owner)]
  }

  /** What a listing produced: the statements, the query dict afterwards and every query sent, in order. */
  datatype Run = Run(statements: seq<Statement>, last: Query, sent: seq<Query>)

  /** `r` preceded by statements and requests that came before it. */
  function Prepend(statements: seq<Statement>, sent: seq<Query>, r: Run): Run
  {
    Run(statements + r.statements, r.last, sent + r.sent)
  }

  lemma PrependTwice(a: seq<Statement>, b: seq<Query>, c: seq<Statement>, d: seq<Query>, r: Run)
    ensures Prepend(a, b, Prepend(c, d, r)) == Prepend(a + c, b + d, r)
  {
    assert a + (c + r.statements) == (a + c) + r.statements;
    assert b + (d + r.sent) == (b + d) + r.sent;
  }

  /** The query a request is sent with: the page token set when there is one, then the status. */
  function NextQuery(q: Query, pageToken: string, status: string): (r: Query)
    ensures PaymentStatus in r && r[PaymentStatus] == status
  {
    (if pageToken != "" then q[PageToken := pageToken] else q)[PaymentStatus := status]
  }

  /**
   * The paging loop of `get_statements_by_status` from the request sent
   * with `first` on, allowing `fuel` further pages.
   */
  function Pages(first: Query, status: string, shop: Shop, owner: Owner, fetch: Query -> Response, fuel: nat): (r: Run)
    ensures 1 <= |r.sent| <= fuel + 1 && r.sent[0] == first
    ensures r.last == r.sent[|r.sent| - 1]
    decreases fuel
  {
    var resp := fetch(first);
    if Stops(resp) then Run([], first, [first])
    else
      var page := AnnotateAll(resp.statements, shop, owner);
      if resp.nextPageToken == "" || fuel == 0 then Run(page, first, [first])
      else
        Prepend(page, [first], Pages(NextQuery(first, resp.nextPageToken, status), status, shop, owner, fetch, fuel - 1))
  }

  predicate Tagged(ss: seq<Statement>, shop: Shop, owner: Owner)
  {
    forall k :: 0 <= k < |ss| ==>
      && "shop_owner" in ss[k] && ss[k]["shop_owner"] == OwnerJson(owner)
      && "shop" in ss[k] && ss[k]["shop"] == ShopJson(shop)
  }

  predicate AskFor(sent: seq<Query>, status: string)
  {
    forall k :: 0 <= k < |sent| ==> PaymentStatus in sent[k] && sent[k][PaymentStatus] == status
  }

  lemma AnnotateAllTagged(ss: seq<Statement>, shop: Shop, owner: Owner)
    ensures Tagged(AnnotateAll(ss, shop, owner), shop, owner)
  {
  }

  lemma TaggedConcat(a: seq<Statement>, b: seq<Statement>, shop: Shop, owner: Owner)
    requires Tagged(a, shop, owner) && Tagged(b, shop, owner)
    ensures Tagged(a + b, shop, owner)
  {
    forall k | 0 <= k < |a + b|
      ensures "shop_owner" in (a + b)[k] && (a + b)[k]["shop_owner"] == OwnerJson(owner)
      ensures "shop" in (a + b)[k] && (a + b)[k]["shop"] == ShopJson(shop)
    {
      if k >= |a| {
        assert (a + b)[k] == b[k - |a|];
      } else {
        assert (a + b)[k] == a[k];
      }
    }
  }

  /** A page prepended to a well-formed run, by a request asking for the status, keeps it well-formed. */
  lemma PrependFacts(page: seq<Statement>, first: Query, rest: Run, status: string, shop: Shop, owner: Owner)
    requires Tagged(page, shop, owner) && Tagged(rest.statements, shop, owner)
    requires PaymentStatus in first && first[PaymentStatus] == status && AskFor(rest.sent, status)
    ensures Tagged(Prepend(page, [first], rest).statements, shop, owner)
    ensures AskFor(Prepend(page, [first], rest).sent, status)
  {
    TaggedConcat(page, rest.statements, shop, owner);
    var sent := [first] + rest.sent;
    forall k | 0 <= k < |sent| ensures PaymentStatus in sent[k] && sent[k][PaymentStatus] == status {
      if k > 0 {
        assert sent[k] == rest.sent[k - 1];
      }
    }
  }

  /** Every listed statement is tagged, and every request asks for the status being listed. */
  lemma {:induction false} PagesFacts(first: Query, status: string, shop: Shop, owner: Owner, fetch: Query -> Response, fuel: nat)
    requires PaymentStatus in first && first[PaymentStatus] == status
    ensures Tagged(Pages(first, status, shop, owner, fetch, fuel).statements, shop, owner)
    ensures AskFor(Pages(first, status, shop, owner, fetch, fuel).sent, status)
    decreases fuel
  {
    var resp := fetch(first);
    if !Stops(resp) && resp.nextPageToken != "" && fuel > 0 {
      PagesFacts(NextQuery(first, resp.nextPageToken, status), status, shop, owner, fetch, fuel - 1);
      PagesFactsStep(first, status, shop, owner, fetch, fuel);
    } else {
      AnnotateAllTagged(resp.statements, shop, owner);
    }
  }

  /** The step case of `PagesFacts`: the facts carry over from the rest of the listing to the whole of it. */
  lemma PagesFactsStep(first: Query, status: string, shop: Shop, owner: Owner, fetch: Query -> Response, fuel: nat)
    requires PaymentStatus in first && first[PaymentStatus] == status
    requires !Stops(fetch(first)) && fetch(first).nextPageToken != "" && fuel > 0
    requires Tagged(Pages(NextQuery(first, fetch(first).nextPageToken, status), status, shop, owner, fetch, fuel - 1).statements, shop, owner)
    requires AskFor(Pages(NextQuery(first, fetch(first).nextPageToken, status), status, shop, owner, fetch, fuel - 1).sent, status)
    ensures Tagged(Pages(first, status, shop, owner, fetch, fuel).statements, shop, owner)
    ensures AskFor(Pages(first, status, shop, owner, fetch, fuel).sent, status)
  {
    var resp := fetch(first);
    var page := AnnotateAll(resp.statements, shop, owner);
    var rest := Pages(NextQuery(first, resp.nextPageToken, status), status, shop, owner, fetch, fuel - 1);
    AnnotateAllTagged(resp.statements, shop, owner);
    PrependFacts(page, first, rest, status, shop, owner);
    assert Pages(first, status, shop, owner, fetch, fuel) == Prepend(page, [first], rest);
  }

  /** The keys other than `page_token` and `payment_status` agree. */
  ghost predicate SameBase(a: Query, b: Query)
  {
    forall k :: k != PageToken && k != PaymentStatus ==> (k in a <==> k in b) && (k in a ==> a[k] == b[k])
  }

  /** Paging changes only `page_token` and `payment_status` of the query. */
  lemma {:induction false} PagesBase(first: Query, status: string, shop: Shop, owner: Owner, fetch: Query -> Response, fuel: nat)
    ensures SameBase(Pages(first, status, shop, owner, fetch, fuel).last, first)
    decreases fuel
  {
    var resp := fetch(first);
    if !Stops(resp) && resp.nextPageToken != "" && fuel > 0 {
      PagesBase(NextQuery(first, resp.nextPageToken, status), status, shop, owner, fetch, fuel - 1);
    }
  }

  // ---------------------------------------------------------------- get_statements_all

  /**
   * As written: `page_token` is only ever set, so a status's first request
   * carries whatever token the previous status's listing left in the dict.
   */
  function AllAsWritten(statuses: seq<string>, valid: seq<string>, q: Query, shop: Shop, owner: Owner,
                        fetch: Query -> Response, fuel: nat): (r: Run)
    ensures Tagged(r.statements, shop, owner) && AskForValid(r.sent, valid)
    ensures r.sent == [] <==> forall i :: 0 <= i < |statuses| ==> statuses[i] !in valid
  {
    if statuses == [] then Run([], q, [])
    else if statuses[0] !in valid then AllAsWritten(statuses[1..], valid, q, shop, owner, fetch, fuel)
    else
      var first := q[PaymentStatus := statuses[0]];
      var r := Pages(first, statuses[0], shop, owner, fetch, fuel);
      PagesFacts(first, statuses[0], shop, owner, fetch, fuel);
      var rest := AllAsWritten(statuses[1..], valid, r.last, shop, owner, fetch, fuel);
      TaggedConcat(r.statements, rest.statements, shop, owner);
      AskForValidConcat(r.sent, rest.sent, statuses[0], valid);
      Run(r.statements + rest.statements, rest.last, r.sent + rest.sent)
  }

  /** Every request asks for one of the valid statuses. */
  predicate AskForValid(sent: seq<Query>, valid: seq<string>)
  {
    forall k :: 0 <= k < |sent| ==> PaymentStatus in sent[k] && sent[k][PaymentStatus] in valid
  }

  lemma AskForValidConcat(a: seq<Query>, b: seq<Query>, status: string, valid: seq<string>)
    requires AskFor(a, status) && status in valid && AskForValid(b, valid)
    ensures AskForValid(a + b, valid)
  {
    forall k | 0 <= k < |a + b|
      ensures PaymentStatus in (a + b)[k] && (a + b)[k][PaymentStatus] in valid
    {
      if k >= |a| {
        assert (a + b)[k] == b[k - |a|];
      }
    }
  }

  /** The first request of a status's listing: no page token, the status set. */
  function Fresh(q: Query, status: string): (r: Query)
    ensures PageToken !in r && PaymentStatus in r && r[PaymentStatus] == status
  {
    (q - {PageToken})[PaymentStatus := status]
  }

  /** Each status listed from its first page: the stale token is dropped before the status's first request. */
  function All(statuses: seq<string>, valid: seq<string>, q: Query, shop: Shop, owner: Owner,
               fetch: Query -> Response, fuel: nat): (r: Run)
    ensures Tagged(r.statements, shop, owner) && AskForValid(r.sent, valid)
    ensures r.sent == [] <==> forall i :: 0 <= i < |statuses| ==> statuses[i] !in valid
  {
    if statuses == [] then Run([], q, [])
    else if statuses[0] !in valid then All(statuses[1..], valid, q, shop, owner, fetch, fuel)
    else
      var r := Pages(Fresh(q, statuses[0]), statuses[0], shop, owner, fetch, fuel);
      PagesFacts(Fresh(q, statuses[0]), statuses[0], shop, owner, fetch, fuel);
      var rest := All(statuses[1..], valid, r.last, shop, owner, fetch, fuel);
      TaggedConcat(r.statements, rest.statements, shop, owner);
      AskForValidConcat(r.sent, rest.sent, statuses[0], valid);
      Run(r.statements + rest.statements, rest.last, r.sent + rest.sent)
  }

  /** The listings of the valid statuses, in the order given, each from its own first page. */
  function PerStatus(statuses: seq<string>, valid: seq<string>, q: Query, shop: Shop, owner: Owner,
                     fetch: Query -> Response, fuel: nat): seq<Statement>
  {
    if statuses == [] then []
    else if statuses[0] !in valid then PerStatus(statuses[1..], valid, q, shop, owner, fetch, fuel)
    else Pages(Fresh(q, statuses[0]), statuses[0], shop, owner, fetch, fuel).statements
         + PerStatus(statuses[1..], valid, q, shop, owner, fetch, fuel)
  }

  lemma FreshSameBase(a: Query, b: Query, status: string)
    requires SameBase(a, b)
    ensures Fresh(a, status) == Fresh(b, status)
  {
    var x := Fresh(a, status);
    var y := Fresh(b, status);
    assert forall k :: k in x <==> k in y;
    assert forall k :: k in x ==> x[k] == y[k];
  }

  /**
   * `get_statements_all` skips the statuses not in the valid list and
   * concatenates, in the order given, each valid status's own listing; what
   * one status lists does not depend on the statuses before it.
   */
  lemma {:induction false} AllIsPerStatus(statuses: seq<string>, valid: seq<string>, q: Query, q': Query, shop: Shop, owner: Owner,
                                          fetch: Query -> Response, fuel: nat)
    requires SameBase(q, q')
    ensures All(statuses, valid, q, shop, owner, fetch, fuel).statements == PerStatus(statuses, valid, q', shop, owner, fetch, fuel)
  {
    if statuses != [] {
      if statuses[0] !in valid {
        AllIsPerStatus(statuses[1..], valid, q, q', shop, owner, fetch, fuel);
      } else {
        var s := statuses[0];
        FreshSameBase(q, q', s);
        var r := Pages(Fresh(q, s), s, shop, owner, fetch, fuel);
        PagesBase(Fresh(q, s), s, shop, owner, fetch, fuel);
        assert SameBase(r.last, q');
        AllIsPerStatus(statuses[1..], valid, r.last, q', shop, owner, fetch, fuel);
      }
    }
  }

  /** A server that hands out one more page, with token `"t1"`, to a request without a page token. */
  function TwoPageServer(q: Query): Response
  {
    Response(200, "", [], if PageToken in q then "" else "t1")
  }

  /**
   * Listing "PAID" then "SETTLED" from an empty query: as written, the
   * first "SETTLED" request is sent with "PAID"'s token `"t1"`; the
   * corrected listing sends it without a page token.
   */
  lemma StaleTokenCarried()
    ensures var r := AllAsWritten(["PAID", "SETTLED"], ["PAID", "SETTLED"], map[], Shop(1, "", "", ""), Owner(1, ""), TwoPageServer, 5);
      |r.sent| == 3 && r.sent[2][PaymentStatus] == "SETTLED" && PageToken in r.sent[2] && r.sent[2][PageToken] == "t1"
    ensures var r := All(["PAID", "SETTLED"], ["PAID", "SETTLED"], map[], Shop(1, "", "", ""), Owner(1, ""), TwoPageServer, 5);
      |r.sent| == 4 && r.sent[2] == map[PaymentStatus := "SETTLED"]
  {
    var shop := Shop(1, "", "", "");
    var owner := Owner(1, "");
    var q1 := map[PaymentStatus := "PAID"];
    var q2 := q1[PageToken := "t1"][PaymentStatus := "PAID"];
    assert TwoPageServer(q1).nextPageToken == "t1";
    assert TwoPageServer(q2).nextPageToken == "";
    var paid := Pages(q1, "PAID", shop, owner, TwoPageServer, 5);
    assert paid.sent == [q1, q2] && paid.last == q2;
    var q3 := q2[PaymentStatus := "SETTLED"];
    assert TwoPageServer(q3).nextPageToken == "";
    assert Pages(q3, "SETTLED", shop, owner, TwoPageServer, 5).sent == [q3];
    assert AllAsWritten(["PAID", "SETTLED"][1..], ["PAID", "SETTLED"], q2, shop, owner, TwoPageServer, 5).sent == [q3] by {
      assert ["PAID", "SETTLED"][1..][1..] == [];
    }
    assert Fresh(map[], "PAID") == q1;
    var q3' := Fresh(q2, "SETTLED");
    assert q3' == map[PaymentStatus := "SETTLED"];
    assert TwoPageServer(q3').nextPageToken == "t1";
    var q4' := q3'[PageToken := "t1"][PaymentStatus := "SETTLED"];
    assert TwoPageServer(q4').nextPageToken == "";
    assert Pages(q3', "SETTLED", shop, owner, TwoPageServer, 5).sent == [q3', q4'];
    assert All(["PAID", "SETTLED"][1..], ["PAID", "SETTLED"], q2, shop, owner, TwoPageServer, 5).sent == [q3', q4'] by {
      assert ["PAID", "SETTLED"][1..][1..] == [];
    }
  }

  // ---------------------------------------------------------------- the loops

  /** The inner loop: each statement of a page tagged and appended. */
  method AppendPage(statements: seq<Statement>, page: seq<Statement>, shop: Shop, owner: Owner) returns (r: seq<Statement>)
    ensures r == statements + AnnotateAll(page, shop, owner)
  {
    r := statements;
    for j := 0 to |page|
      invariant r == statements + AnnotateAll(page[..j], shop, owner)
    {
      assert page[..j + 1][..j] == page[..j];
      r := r + [Annotate(page[j], shop, owner)];
    }
    assert page[..|page|] == page;
  }

  /** One turn of the paging loop, unfolded. */
  lemma PagesStep(first: Query, status: string, shop: Shop, owner: Owner, fetch: Query -> Response, fuel: nat)
    ensures var resp := fetch(first);
      Pages(first, status, shop, owner, fetch, fuel) ==
        if Stops(resp) then Run([], first, [first])
        else if resp.nextPageToken == "" || fuel == 0 then Run(AnnotateAll(resp.statements, shop, owner), first, [first])
        else Prepend(AnnotateAll(resp.statements, shop, owner), [first],
                     Pages(NextQuery(first, resp.nextPageToken, status), status, shop, owner, fetch, fuel - 1))
  {
  }

  /** `Pages` when another page follows. */
  lemma PagesMore(first: Query, status: string, shop: Shop, owner: Owner, fetch: Query -> Response, fuel: nat)
    requires !Stops(fetch(first)) && fetch(first).nextPageToken != "" && fuel > 0
    ensures Pages(first, status, shop, owner, fetch, fuel) ==
      Prepend(AnnotateAll(fetch(first).statements, shop, owner), [first],
              Pages(NextQuery(first, fetch(first).nextPageToken, status), status, shop, owner, fetch, fuel - 1))
  {
  }

  /**
   * One turn of the paging loop: the request is sent with the token and
   * status set, the page appended, and the loop goes on while there is a
   * next token (and `left` allows another page).
   */
  method PageTurn(shop: Shop, owner: Owner, q: Query, pageToken: string, status: string, fetch: Query -> Response, left: nat,
                  statements: seq<Statement>, sent: seq<Query>)
    returns (q': Query, pageToken': string, withinRange: bool, left': nat, statements': seq<Statement>, sent': seq<Query>)
    ensures left' <= left
    ensures withinRange ==> left' < left
    ensures withinRange ==>
      Prepend(statements, sent, Pages(NextQuery(q, pageToken, status), status, shop, owner, fetch, left))
      == Prepend(statements', sent', Pages(NextQuery(q', pageToken', status), status, shop, owner, fetch, left'))
    ensures !withinRange ==>
      Prepend(statements, sent, Pages(NextQuery(q, pageToken, status), status, shop, owner, fetch, left)) == Run(statements', q', sent')
  {
    q' := NextQuery(q, pageToken, status);
    var response := fetch(q');
    sent' := sent + [q'];
    pageToken', left' := pageToken, left;
    statements' := statements;
    if Stops(response) {
      withinRange := false;
      PagesStep(q', status, shop, owner, fetch, left);
      return;
    }
    statements' := AppendPage(statements, response.statements, shop, owner);
    pageToken' := response.nextPageToken;
    if pageToken' != "" && left != 0 {
      withinRange := true;
      left' := left - 1;
      var page := AnnotateAll(response.statements, shop, owner);
      var rest := Pages(NextQuery(q', pageToken', status), status, shop, owner, fetch, left');
      PagesMore(q', status, shop, owner, fetch, left);
      PrependTwice(statements, sent, page, [q'], rest);
    } else {
      withinRange := false;
      PagesStep(q', status, shop, owner, fetch, left);
    }
  }

  /**
   * `get_statements_by_status`, corrected to drop a stale `page_token`
   * first. `maxPages` bounds the pages followed after the first one.
   */
  method GetStatementsByStatus(shop: Shop, owner: Owner, query: Query, status: string, fetch: Query -> Response, maxPages: nat)
    returns (statements: seq<Statement>, queryAfter: Query, sent: seq<Query>)
    ensures Run(statements, queryAfter, sent) == Pages(Fresh(query, status), status, shop, owner, fetch, maxPages)
  {
    var q := query - {PageToken};
    ghost var target := Pages(Fresh(query, status), status, shop, owner, fetch, maxPages);
    var pageToken := "";
    var withinRange := true;
    var left := maxPages;
    statements, sent := [], [];
    assert NextQuery(q, pageToken, status) == Fresh(query, status);
    while withinRange
      invariant withinRange ==> Prepend(statements, sent, Pages(NextQuery(q, pageToken, status), status, shop, owner, fetch, left)) == target
      invariant !withinRange ==> Run(statements, q, sent) == target
      decreases left, if withinRange then 1 else 0
    {
      q, pageToken, withinRange, left, statements, sent := PageTurn(shop, owner, q, pageToken, status, fetch, left, statements, sent);
    }
    queryAfter := q;
  }

  /** The status loop, unfolded once. */
  lemma AllStep(statuses: seq<string>, valid: seq<string>, q: Query, shop: Shop, owner: Owner, fetch: Query -> Response, fuel: nat)
    requires statuses != []
    ensures All(statuses, valid, q, shop, owner, fetch, fuel) ==
      if statuses[0] !in valid then All(statuses[1..], valid, q, shop, owner, fetch, fuel)
      else
        var r := Pages(Fresh(q, statuses[0]), statuses[0], shop, owner, fetch, fuel);
        Prepend(r.statements, r.sent, All(statuses[1..], valid, r.last, shop, owner, fetch, fuel))
  {
  }

  /** `get_statements_all`: the listings of the valid statuses, in order, the query dict threaded through. */
  method GetStatementsAll(shop: Shop, owner: Owner, query: Query, statuses: seq<string>, valid: seq<string>,
                          fetch: Query -> Response, maxPages: nat)
    returns (statements: seq<Statement>, queryAfter: Query, sent: seq<Query>)
    ensures Run(statements, queryAfter, sent) == All(statuses, valid, query, shop, owner, fetch, maxPages)
    ensures statements == PerStatus(statuses, valid, query, shop, owner, fetch, maxPages)
  {
    ghost var target := All(statuses, valid, query, shop, owner, fetch, maxPages);
    statements, queryAfter, sent := [], query, [];
    for i := 0 to |statuses|
      invariant Prepend(statements, sent, All(statuses[i..], valid, queryAfter, shop, owner, fetch, maxPages)) == target
    {
      AllStep(statuses[i..], valid, queryAfter, shop, owner, fetch, maxPages);
      assert statuses[i..][1..] == statuses[i + 1..];
      if statuses[i] in valid {
        var page, after, requests := GetStatementsByStatus(shop, owner, queryAfter, statuses[i], fetch, maxPages);
        PrependTwice(statements, sent, page, requests, All(statuses[i + 1..], valid, after, shop, owner, fetch, maxPages));
        statements, queryAfter, sent := statements + page, after, sent + requests;
      }
    }
    assert statuses[|statuses|..] == [];
    AllIsPerStatus(statuses, valid, query, query, shop, owner, fetch, maxPages);
  }

  // ---------------------------------------------------------------- get_statement_transactions

  const Host := "https://open-api.tiktokglobalshop.com"
  const StatementsUrl := Host + "/finance/202309/statements"
  const StatementIdField := "{statement_id}"
  const TransactionsSuffix := "/statement_transactions"
  /** `TIKTOK_API_URL["url_get_statement_transactions"]`. */
  const TransactionsTemplate := StatementsUrl + "/" + StatementIdField + TransactionsSuffix

  /** The transactions URL: the template with `{statement_id}` replaced. */
  function TransactionsUrl(statementId: string): (r: string)
    ensures r == StatementsUrl + "/" + statementId + TransactionsSuffix
  {
    ReplaceOnceFacts(StatementsUrl + "/", StatementIdField, TransactionsSuffix, statementId);
    assert TransactionsTemplate == (StatementsUrl + "/") + StatementIdField + TransactionsSuffix;
    Text.ReplaceAll(TransactionsTemplate, StatementIdField, statementId)
  }

  lemma {:induction false} NotContainsFirst(s: string, pat: string)
    requires pat != "" && pat[0] !in s
    ensures !Text.Contains(s, pat)
  {
    if s != "" {
      NotContainsFirst(s[1..], pat);
    }
  }

  /** Replacing a pattern whose first character occurs nowhere else replaces its one occurrence. */
  lemma {:induction false} ReplaceOnceFacts(p: string, pat: string, s: string, rep: string)
    requires pat != "" && pat[0] !in p && pat[0] !in s
    ensures Text.ReplaceAll(p + pat + s, pat, rep) == p + rep + s
  {
    if p == "" {
      assert p + pat + s == pat + s;
      ReplaceAtFront(pat, s, rep);
    } else {
      ReplaceOnceFacts(p[1..], pat, s, rep);
      ReplacePastFirst(p, pat, s, rep);
    }
  }

  lemma ReplaceAtFront(pat: string, s: string, rep: string)
    requires pat != "" && pat[0] !in s
    ensures Text.ReplaceAll(pat + s, pat, rep) == rep + s
  {
    assert (pat + s)[..|pat|] == pat;
    assert (pat + s)[|pat|..] == s;
    NotContainsFirst(s, pat);
    Text.ReplaceAbsent(s, pat, rep);
  }

  lemma ReplacePastFirst(p: string, pat: string, s: string, rep: string)
    requires pat != "" && p != "" && pat[0] != p[0]
    requires Text.ReplaceAll(p[1..] + pat + s, pat, rep) == p[1..] + rep + s
    ensures Text.ReplaceAll(p + pat + s, pat, rep) == p + rep + s
  {
    var whole := p + pat + s;
    assert whole[0] == p[0];
    assert !Text.StartsWith(whole, pat);
    assert whole[1..] == p[1..] + pat + s;
    assert p + rep + s == [p[0]] + (p[1..] + rep + s);
  }
}
