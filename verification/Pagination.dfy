/** Pages of a fixed, ordered list of releases. */
module Pagination {
  datatype Response<T> = Response(items: seq<T>, total: nat, page: int, pageSize: int, totalPages: nat)

  /** The rows that a query with this offset and limit returns. */
  function Rows<T>(all: seq<T>, offset: nat, limit: nat): seq<T> {
    var from := if offset < |all| then offset else |all|;
    var to := if from + limit < |all| then from + limit else |all|;
    all[from..to]
  }

  function Ceiling(total: nat, size: nat): nat
    requires size > 0
  {
    (total + size - 1) / size
  }

  lemma {:induction false} CeilingMeans(total: nat, size: nat)
    requires size > 0
    ensures total <= Ceiling(total, size) * size < total + size
  {
    var t := total + size - 1;
    assert t == t / size * size + t % size;
  }

  /** The page of a listing with its page count. */
  function GetPage<T>(all: seq<T>, page: nat, pageSize: nat): Response<T>
    requires page >= 1 && pageSize >= 1
  {
    Response(Rows(all, (page - 1) * pageSize, pageSize), |all|, page, pageSize, Ceiling(|all|, pageSize))
  }

  /** The items of pages 1 to `count`, one page after the other. */
  function Joined<T>(all: seq<T>, count: nat, pageSize: nat): seq<T>
    requires pageSize >= 1
  {
    if count == 0 then [] else Joined(all, count - 1, pageSize) + GetPage(all, count, pageSize).items
  }

  lemma {:induction false} JoinedIsPrefix<T>(all: seq<T>, count: nat, pageSize: nat)
    requires pageSize >= 1
    ensures Joined(all, count, pageSize) == Rows(all, 0, count * pageSize)
  {
    if count > 0 {
      JoinedIsPrefix(all, count - 1, pageSize);
      assert (count - 1) * pageSize + pageSize == count * pageSize;
      RowsJoin(all, (count - 1) * pageSize, pageSize);
    } else {
      assert Rows(all, 0, 0) == [];
    }
  }

  lemma RowsJoin<T>(all: seq<T>, n: nat, more: nat)
    ensures Rows(all, 0, n) + Rows(all, n, more) == Rows(all, 0, n + more)
  {
  }

  /** The pages that the response announces hold every item once and in order; all but the last are
      full, the last is not empty, and there is nothing on any page after it. */
  lemma PagesCover<T>(all: seq<T>, pageSize: nat, page: nat)
    requires pageSize >= 1 && page >= 1
    ensures (var response := GetPage(all, page, pageSize);
             && response.total == |all| && response.page == page && response.pageSize == pageSize
             && Joined(all, response.totalPages, pageSize) == all
             && (page < response.totalPages ==> |response.items| == pageSize)
             && (page == response.totalPages ==> 0 < |response.items| <= pageSize)
             && (page > response.totalPages ==> response.items == []))
  {
    var pages := Ceiling(|all|, pageSize);
    CeilingMeans(|all|, pageSize);
    JoinedIsPrefix(all, pages, pageSize);
    assert (page - 1) * pageSize == page * pageSize - pageSize;
    if page < pages {
      Monotone(page, pages - 1, pageSize);
      assert (pages - 1) * pageSize == pages * pageSize - pageSize;
    } else if page > pages {
      Monotone(pages, page - 1, pageSize);
    }
  }

  lemma Monotone(a: nat, b: nat, k: nat)
    requires a <= b
    ensures a * k <= b * k
  {
    assert (b - a) * k >= 0;
    assert b * k == a * k + (b - a) * k;
  }
}
