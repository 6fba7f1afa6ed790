/**
 * The pagination of the notice and event listings: `skip((page - 1) * limit).limit(limit)`
 * over the sorted matches, with `totalPages = Math.ceil(total / limit)`. The query values
 * default to page 1 and limit 10. A limit of 0 means no limit to the database, and
 * `total / 0` is not a finite number, which the JSON reply sends as `null`.
 */
module Paging {
  import opened Wrappers
  import opened Seqs
  import opened Http

  const DefaultPage: nat := 1
  const DefaultLimit: nat := 10

  datatype Page<T> = Page(items: seq<T>, totalPages: Option<nat>, currentPage: nat)

  /** `(page - 1) * limit`: how many matches come before the page. */
  function Skip(page: nat, limit: nat): nat
    requires page > 0
  {
    (page - 1) * limit
  }

  /** One page of `matching`; page 0 asks for a negative skip, which the database refuses. */
  function Paginate<T>(matching: seq<T>, page: Option<nat>, limit: Option<nat>): Answer<Page<T>> {
    var p := page.GetOr(DefaultPage);
    var l := limit.GetOr(DefaultLimit);
    if p == 0 then Fail(ServerError)
    else Ok(Page(Window(matching, Skip(p, l), l), if l == 0 then None else Some(CeilDiv(|matching|, l)), p))
  }

  /**
   * Page `p` of size `l` holds the matches from index `(p - 1) * l` on, at most `l` of
   * them, and enough pages are counted for every match.
   */
  lemma PaginateShape<T>(matching: seq<T>, p: nat, l: nat)
    ensures var a := Paginate(matching, Some(p), Some(l));
      (a.Fail? <==> p == 0) &&
      (a.Ok? ==>
        a.body.currentPage == p &&
        (l > 0 ==> |a.body.items| <= l && a.body.totalPages.Some? &&
                   a.body.totalPages.value * l >= |matching| &&
                   (a.body.totalPages.value == 0 || (a.body.totalPages.value - 1) * l < |matching|)) &&
        (l == 0 ==> a.body.totalPages.None?) &&
        (forall k :: 0 <= k < |a.body.items| ==> (p - 1) * l + k < |matching| && a.body.items[k] == matching[(p - 1) * l + k]))
  {
    if p > 0 {
      var w := Window(matching, (p - 1) * l, l);
      if (p - 1) * l >= |matching| {
        assert w == [];
      }
    }
  }

  /** The `k`-th item of a page is the match at index `Skip(p, l) + k`. */
  lemma OnPage<T>(matching: seq<T>, p: nat, l: nat, k: nat)
    requires p > 0 && k < |Window(matching, Skip(p, l), l)|
    ensures Skip(p, l) + k < |matching| && Window(matching, Skip(p, l), l)[k] == matching[Skip(p, l) + k]
  {
  }

  /** A page keeps any property of every match, and any order the matches are sorted in. */
  lemma PageKeeps<T>(matching: seq<T>, page: Option<nat>, limit: Option<nat>, P: T -> bool, key: T -> int)
    requires forall k :: 0 <= k < |matching| ==> P(matching[k])
    requires SortedBy(matching, key)
    ensures var a := Paginate(matching, page, limit);
      a.Ok? ==> (forall k :: 0 <= k < |a.body.items| ==> P(a.body.items[k])) && SortedBy(a.body.items, key)
  {
    var p := page.GetOr(DefaultPage);
    var l := limit.GetOr(DefaultLimit);
    if p > 0 {
      var items := Window(matching, Skip(p, l), l);
      forall k | 0 <= k < |items|
        ensures P(items[k])
      {
        OnPage(matching, p, l, k);
      }
      forall i, j | 0 <= i < j < |items|
        ensures key(items[i]) <= key(items[j])
      {
        OnPage(matching, p, l, i);
        OnPage(matching, p, l, j);
      }
    }
  }

  /** With no query values the first ten matches are sent. */
  lemma PaginateDefaults<T>(matching: seq<T>)
    ensures Paginate(matching, None, None) ==
      Ok(Page(if |matching| <= 10 then matching else matching[..10], Some(CeilDiv(|matching|, 10)), 1))
  {
    assert Paginate(matching, None, None) == Ok(Page(Window(matching, 0, 10), Some(CeilDiv(|matching|, 10)), 1));
    if |matching| > 10 {
      assert Window(matching, 0, 10) == matching[..10];
    } else {
      assert Window(matching, 0, 10) == matching[0..|matching|];
      assert matching[0..|matching|] == matching;
    }
  }

  /** Every match is on exactly the page its index says, at the position its index says. */
  lemma EveryMatchOnItsPage<T>(matching: seq<T>, l: nat, i: nat)
    requires l > 0 && i < |matching|
    ensures var a := Paginate(matching, Some(i / l + 1), Some(l));
      a.Ok? && i % l < |a.body.items| && a.body.items[i % l] == matching[i]
  {
    var p := i / l + 1;
    assert (p - 1) * l + i % l == i;
    assert (p - 1) * l <= i;
    var w := Window(matching, (p - 1) * l, l);
    assert w == matching[(p - 1) * l..(if (p - 1) * l + l > |matching| then |matching| else (p - 1) * l + l)];
  }
}
