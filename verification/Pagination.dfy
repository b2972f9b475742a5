/** The paged lists of threads and comments: a page is cut from the sorted list by skip and limit, and every item is
    given its author's name, looked up once per author. */
module Pagination {
  import opened Common

  const TWO63 := 0x8000_0000_0000_0000

  /** A Go int: 64 bits, wrapping around. */
  function Wrap64(x: int): (r: int)
    ensures -TWO63 <= r < TWO63
    ensures -TWO63 <= x < TWO63 ==> r == x
  {
    (x + TWO63) % (2 * TWO63) - TWO63
  }

  function Skip(page: int, limit: int): int { Wrap64((page - 1) * limit) }

  function TotalPages(total: nat, limit: int): int
    requires limit >= 1
  {
    (total + limit - 1) / limit
  }

  /** What the database gives for a skip and a limit; a negative skip is an error. */
  function Fetch<T>(items: seq<T>, skip: int, limit: nat): Option<seq<T>> {
    if skip < 0 then None
    else if skip >= |items| then Some([])
    else Some(items[skip..Min(skip + limit, |items|)])
  }

  function Page<T>(items: seq<T>, page: int, limit: nat): Option<seq<T>> {
    Fetch(items, Skip(page, limit), limit)
  }

  /** The list is one that a 64-bit count can measure, together with the rounding up of its pages. */
  predicate Countable<T>(items: seq<T>, limit: int) { |items| + limit <= TWO63 }

  lemma PagesCover(total: nat, limit: int)
    requires limit >= 1
    ensures TotalPages(total, limit) >= 0
    ensures (TotalPages(total, limit) - 1) * limit < total <= TotalPages(total, limit) * limit ||
            (total == 0 && TotalPages(total, limit) == 0)
  {
    var t := TotalPages(total, limit);
    assert t * limit <= total + limit - 1 < t * limit + limit;
    assert (t - 1) * limit == t * limit - limit;
  }

  lemma ProductGrows(a: int, b: int, limit: int)
    requires a <= b && limit >= 1
    ensures a * limit <= b * limit
  {
  }

  /** Which part of the list a page is. */
  lemma PageIs<T>(items: seq<T>, page: int, limit: nat)
    requires 1 <= limit && Countable(items, limit)
    requires 1 <= page <= TotalPages(|items|, limit)
    ensures var from := (page - 1) * limit;
      && 0 <= from < |items|
      && Page(items, page, limit) == Some(items[from..Min(from + limit, |items|)])
    ensures page < TotalPages(|items|, limit) ==> page * limit <= |items|
  {
    PagesCover(|items|, limit);
    var t := TotalPages(|items|, limit);
    ProductGrows(page - 1, t - 1, limit);
    ProductGrows(0, page - 1, limit);
    if page < t {
      ProductGrows(page, t - 1, limit);
    }
  }

  function PagesJoined<T>(items: seq<T>, limit: nat, pages: nat): seq<T> {
    if pages == 0 then []
    else
      PagesJoined(items, limit, pages - 1) +
      match Page(items, pages, limit) { case Some(p) => p case None => [] }
  }

  lemma {:induction false} FirstPagesArePrefix<T>(items: seq<T>, limit: nat, pages: nat)
    requires 1 <= limit && Countable(items, limit) && pages <= TotalPages(|items|, limit)
    ensures 0 <= pages * limit
    ensures PagesJoined(items, limit, pages) == items[..Min(pages * limit, |items|)]
  {
    if pages > 0 {
      FirstPagesArePrefix(items, limit, pages - 1);
      PageIs(items, pages, limit);
      var from := (pages - 1) * limit;
      assert from + limit == pages * limit;
      assert items[..from] + items[from..Min(from + limit, |items|)] == items[..Min(from + limit, |items|)];
    }
  }

  /** The pages 1 to total_pages partition the list: joined they are the list, all but the last are full, and the last
      is not empty. */
  lemma PagesPartition<T>(items: seq<T>, limit: nat)
    requires 1 <= limit && Countable(items, limit)
    ensures TotalPages(|items|, limit) >= 0
    ensures PagesJoined(items, limit, TotalPages(|items|, limit)) == items
    ensures forall page :: 1 <= page < TotalPages(|items|, limit) ==>
      Page(items, page, limit).Some? && |Page(items, page, limit).value| == limit
    ensures items != [] ==>
      var last := Page(items, TotalPages(|items|, limit), limit);
      last.Some? && 1 <= |last.value| <= limit
  {
    PagesCover(|items|, limit);
    var t := TotalPages(|items|, limit);
    FirstPagesArePrefix(items, limit, t);
    forall page | 1 <= page < t
      ensures Page(items, page, limit).Some? && |Page(items, page, limit).value| == limit
    {
      PageIs(items, page, limit);
      assert (page - 1) * limit + limit == page * limit;
    }
    if items != [] {
      assert t >= 1;
      PageIs(items, t, limit);
    }
  }

  /** The offset of a page as the 64 bits hold it, read without sign. */
  function Offset(page: int, limit: nat): int { (page - 1) * limit % (2 * TWO63) }

  /** Only the low 64 bits of an offset count; with the top one set it is negative. */
  lemma WrapByOffset(x: int)
    ensures Wrap64(x) == if x % (2 * TWO63) < TWO63 then x % (2 * TWO63) else x % (2 * TWO63) - 2 * TWO63
  {
  }

  /** What any page of any list is, however large its number: an error, empty, or a part of the list, as the low 64 bits
      of its offset say. */
  lemma PageByOffset<T>(items: seq<T>, page: int, limit: nat)
    requires 1 <= limit
    ensures var offset := Offset(page, limit);
      && (Page(items, page, limit) == None <==> offset >= TWO63)
      && (Page(items, page, limit) == Some([]) <==> |items| <= offset < TWO63)
      && (offset < TWO63 && offset < |items| ==>
            Page(items, page, limit) == Some(items[offset..Min(offset + limit, |items|)]))
  {
    WrapByOffset((page - 1) * limit);
    var offset := Offset(page, limit);
    if offset < TWO63 && offset < |items| {
      assert items[offset..Min(offset + limit, |items|)] != [];
    }
  }

  /** The pages after the last one are the empty ones, if and only if their offset wraps around neither to a negative
      one nor into the list. */
  lemma LaterPagesAreEmptyIff<T>(items: seq<T>, page: int, limit: nat)
    requires 1 <= limit && Countable(items, limit) && TotalPages(|items|, limit) < page
    ensures Page(items, page, limit) == Some([]) <==> |items| <= Offset(page, limit) < TWO63
    ensures (page - 1) * limit < TWO63 ==> Page(items, page, limit) == Some([])
  {
    PageByOffset(items, page, limit);
    PagesCover(|items|, limit);
    ProductGrows(TotalPages(|items|, limit), page - 1, limit);
    ProductGrows(0, TotalPages(|items|, limit), limit);
  }

  /** The pages that show the first page again are those whose offset wraps around to the start. */
  lemma SamePageIff<T>(items: seq<T>, page: int, limit: nat)
    requires 1 <= limit && items != [] && Distinct(items)
    ensures Page(items, page, limit) == Page(items, 1, limit) <==> Offset(page, limit) == 0
  {
    PageByOffset(items, page, limit);
    PageByOffset(items, 1, limit);
    var offset := Offset(page, limit);
    if 0 < offset < TWO63 && offset < |items| {
      assert items[offset..Min(offset + limit, |items|)][0] == items[offset] != items[0];
    }
  }

  ghost predicate Distinct<T>(items: seq<T>) { forall i, j :: 0 <= i < j < |items| ==> items[i] != items[j] }

  /** The least such page at a size of 32. */
  lemma FarPageWrapsAround<T>(items: seq<T>)
    ensures Page(items, 0x800_0000_0000_0001, 32) == Page(items, 1, 32)
    ensures forall page {:trigger Offset(page, 32)} :: 1 < page < 0x800_0000_0000_0001 ==> Offset(page, 32) != 0
  {
    assert Offset(0x800_0000_0000_0001, 32) == 0 == Offset(1, 32);
    PageByOffset(items, 0x800_0000_0000_0001, 32);
    PageByOffset(items, 1, 32);
  }

  // ---- The list handlers ----

  datatype Post = Post(id: nat, author: nat, content: string)

  datatype Item = Item(id: nat, content: string, username: string)

  function NameOf(users: map<nat, string>, author: nat): string {
    if author in users then users[author] else "Unknown User"
  }

  function ItemOf(users: map<nat, string>, p: Post): Item { Item(p.id, p.content, NameOf(users, p.author)) }

  /** The loop that gives every item its author's name. A name found is cached, a failed lookup is not. */
  method ListItems(posts: seq<Post>, users: map<nat, string>) returns (items: seq<Item>)
    ensures |items| == |posts|
    ensures forall i :: 0 <= i < |posts| ==> items[i] == ItemOf(users, posts[i])
  {
    items := [];
    var userCache: map<nat, string> := map[];
    for i := 0 to |posts|
      invariant |items| == i
      invariant forall j :: 0 <= j < i ==> items[j] == ItemOf(users, posts[j])
      invariant forall a :: a in userCache ==> a in users && userCache[a] == users[a]
    {
      var post := posts[i];
      var username;
      if post.author in userCache {
        username := userCache[post.author];
      } else if post.author in users {
        username := users[post.author];
        userCache := userCache[post.author := username];
      } else {
        username := "Unknown User";
      }
      items := items + [Item(post.id, post.content, username)];
    }
  }

  datatype Listing = Listing(items: seq<Item>, total: nat, page: int, limit: int, totalPages: int)

  /** What a list handler owes for a page of a size: an error for an offset past 63 bits, else the slice of the sorted
      list with each author's name, and the page data. */
  ghost predicate Shows(posts: seq<Post>, users: map<nat, string>, page: int, limit: int, r: Option<Listing>) {
    var offset := (page - 1) * limit % 0x1_0000_0000_0000_0000;
    && (r.None? <==> offset >= 0x8000_0000_0000_0000)
    && (r.Some? ==>
          && r.value.page == page && r.value.limit == limit && r.value.total == |posts|
          && (r.value.totalPages - 1) * limit < |posts| <= r.value.totalPages * limit
          && |r.value.items| == (if offset < |posts| then Min(limit, |posts| - offset) else 0)
          && forall i :: 0 <= i < |r.value.items| ==>
               var p := posts[offset + i];
               r.value.items[i] ==
                 Item(p.id, p.content, if p.author in users then users[p.author] else "Unknown User"))
  }

  lemma SliceIs<T>(items: seq<T>, page: int, limit: nat)
    requires 1 <= limit && Page(items, page, limit).Some?
    ensures var offset, slice := (page - 1) * limit % 0x1_0000_0000_0000_0000, Page(items, page, limit).value;
      && 0 <= offset < 0x8000_0000_0000_0000
      && |slice| == (if offset < |items| then Min(limit, |items| - offset) else 0)
      && forall i :: 0 <= i < |slice| ==> slice[i] == items[offset + i]
  {
    PageByOffset(items, page, limit);
  }

  lemma SliceShows(posts: seq<Post>, users: map<nat, string>, page: int, limit: nat, items: seq<Item>, totalPages: int)
    requires 1 <= limit && Page(posts, page, limit).Some? && |items| == |Page(posts, page, limit).value|
    requires forall i :: 0 <= i < |items| ==> items[i] == ItemOf(users, Page(posts, page, limit).value[i])
    requires (totalPages - 1) * limit < |posts| <= totalPages * limit
    ensures Shows(posts, users, page, limit, Some(Listing(items, |posts|, page, limit, totalPages)))
  {
    SliceIs(posts, page, limit);
  }

  /** A list handler on the sorted list; a query parameter is 0 when absent or not a numeral, and the nearest 64-bit int
      when the numeral is too large for one. */
  method GetPage(posts: seq<Post>, users: map<nat, string>, pageParam: int, limitParam: int, standard: nat)
    returns (r: Option<Listing>)
    requires 1 <= standard <= 50
    ensures Shows(posts, users, if pageParam < 1 then 1 else pageParam,
                  if limitParam < 1 || 50 < limitParam then standard else limitParam, r)
  {
    var page := pageParam;
    if page < 1 {
      page := 1;
    }
    var limit := limitParam;
    if limit < 1 || limit > 50 {
      limit := standard;
    }
    var found := Fetch(posts, Skip(page, limit), limit);
    if found.None? {
      PageByOffset(posts, page, limit);
      return None;
    }
    var items := ListItems(found.value, users);
    var totalPages := (|posts| + limit - 1) / limit;
    PagesCover(|posts|, limit);
    SliceShows(posts, users, page, limit, items, totalPages);
    return Some(Listing(items, |posts|, page, limit, totalPages));
  }

  /** GetThreadsHandler, with 10 to a page unless the query asks for 1 to 50. */
  method GetThreads(threads: seq<Post>, users: map<nat, string>, pageParam: int, limitParam: int)
    returns (r: Option<Listing>)
    ensures Shows(threads, users, if pageParam < 1 then 1 else pageParam,
                  if 1 <= limitParam <= 50 then limitParam else 10, r)
  {
    r := GetPage(threads, users, pageParam, limitParam, 10);
  }

  /** GetCommentsHandler, with 20 to a page unless the query asks for 1 to 50. */
  method GetComments(comments: seq<Post>, users: map<nat, string>, pageParam: int, limitParam: int)
    returns (r: Option<Listing>)
    ensures Shows(comments, users, if pageParam < 1 then 1 else pageParam,
                  if 1 <= limitParam <= 50 then limitParam else 20, r)
  {
    r := GetPage(comments, users, pageParam, limitParam, 20);
  }

  lemma SmallMod(x: int, m: int)
    requires 0 <= x < m
    ensures x % m == x
  {
  }

  /** Turning the pages from 1 on shows every post once and in order: post number `i * limit + j` is item `j` of page
      `i + 1`, which is one of the pages announced. */
  lemma EveryPostIsShown(posts: seq<Post>, users: map<nat, string>, limit: nat, i: nat, j: nat, r: Option<Listing>)
    requires |posts| <= 0x8000_0000_0000_0000 && 0 <= i * limit
    requires j < limit && i * limit + j < |posts| && Shows(posts, users, i + 1, limit, r)
    ensures r.Some? && i < r.value.totalPages
    ensures j < |r.value.items| && r.value.items[j].id == posts[i * limit + j].id
  {
    assert (i + 1 - 1) * limit == i * limit;
    SmallMod(i * limit, 0x1_0000_0000_0000_0000);
    LessFactor(i, r.value.totalPages, limit);
  }
}
