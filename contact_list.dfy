/** components/contact-list.tsx: the paged list of contacts. The component
    state (`currentPage`, `totalPages`, `paginatedContacts`) is a class whose
    methods are the effect that recomputes the page and `goToPage`; the
    arithmetic and the display rules are functions. */
module ContactList {
  import opened Common
  import opened ContactTypes

  const DEFAULT_PAGE_SIZE: nat := 6

  /** `Math.ceil(n / size)` */
  function PageCount(n: nat, size: nat): (pages: nat)
    requires size > 0
    ensures pages == 0 <==> n == 0
    ensures n <= pages * size
    ensures pages > 0 ==> (pages - 1) * size < n
  {
    (n + size - 1) / size
  }

  /** `total || 1`: at least one page, even for an empty list. */
  function TotalPages(n: nat, size: nat): (pages: nat)
    requires size > 0
    ensures pages >= 1
    ensures n > 0 ==> pages == PageCount(n, size)
    ensures n == 0 ==> pages == 1
  {
    var total := PageCount(n, size);
    if total == 0 then 1 else total
  }

  /** The page kept after the contacts change: one beyond the last page is
      pulled back to the last page; with no contacts the page is left alone. */
  function ClampedPage(page: int, n: nat, size: nat): (p: int)
    requires size > 0
    ensures var total := PageCount(n, size);
      (page > total && total > 0 ==> p == total) && (!(page > total && total > 0) ==> p == page)
  {
    var total := PageCount(n, size);
    if page > total && total > 0 then total else page
  }

  /** `array.slice(start, end)` for non-negative bounds: both are cut down to
      the length of the array. */
  function Slice<T>(s: seq<T>, start: nat, end: nat): (r: seq<T>)
    ensures start <= |s| && start <= end ==> |r| == (if end <= |s| then end else |s|) - start
    ensures start >= |s| || end <= start ==> r == []
    ensures forall k :: 0 <= k < |r| ==> start + k < |s| && r[k] == s[start + k]
  {
    var hi := if end <= |s| then end else |s|;
    if start >= hi then [] else s[start..hi]
  }

  /** The first position of page `page`. */
  function PageStart(page: int, size: nat): nat
    requires page >= 1
  {
    (page - 1) * size
  }

  /** The contacts shown on page `page`: positions [(page-1)*size, page*size). */
  function PageOf<T>(contacts: seq<T>, page: int, size: nat): (r: seq<T>)
    requires page >= 1 && size > 0
    ensures |r| <= size
    ensures forall k :: 0 <= k < |r| ==> PageStart(page, size) + k < |contacts| && r[k] == contacts[PageStart(page, size) + k]
    ensures PageStart(page, size) < |contacts| ==> |r| > 0
    ensures |r| == (if PageStart(page, size) >= |contacts| then 0
                    else if |contacts| - PageStart(page, size) < size then |contacts| - PageStart(page, size)
                    else size)
  {
    var startIndex := PageStart(page, size);
    Slice(contacts, startIndex, startIndex + size)
  }

  /** Once clamped, the page of a non-empty list is a real page and is not empty. */
  lemma {:induction false} ClampedPageIsShown<T>(contacts: seq<T>, page: int, size: nat)
    requires page >= 1 && size > 0 && |contacts| > 0
    ensures var p := ClampedPage(page, |contacts|, size);
      1 <= p && (p <= TotalPages(|contacts|, size) || page <= TotalPages(|contacts|, size))
      && (page <= TotalPages(|contacts|, size) ==> p == page)
      && (p <= TotalPages(|contacts|, size) ==> |PageOf(contacts, p, size)| > 0)
  {
    var p := ClampedPage(page, |contacts|, size);
    var total := PageCount(|contacts|, size);
    if p <= total {
      MultiplyLess(p - 1, total - 1, size);
    }
  }

  lemma MultiplyLess(a: int, b: int, size: nat)
    requires 0 <= a <= b
    ensures a * size <= b * size
  {
  }

  /** Clamping twice is clamping once. */
  lemma ClampIdempotent(page: int, n: nat, size: nat)
    requires size > 0
    ensures ClampedPage(ClampedPage(page, n, size), n, size) == ClampedPage(page, n, size)
  {
  }

  /** `shouldShow`: the first and last page and the pages next to the current one. */
  predicate PageButtonShown(page: int, current: int, total: int) {
    page == 1 || page == total || (page - current <= 1 && current - page <= 1)
  }

  /** A hidden page renders "..." only in the second and the second-to-last place. */
  predicate EllipsisShown(page: int, current: int, total: int) {
    !PageButtonShown(page, current, total) && (page == 2 || page == total - 1)
  }

  /** At most five page buttons are visible, and the current page is one of them. */
  lemma {:induction false} FewButtonsShown(current: int, total: int, page: int)
    requires 1 <= page <= total
    ensures PageButtonShown(current, current, total)
    ensures PageButtonShown(page, current, total) ==>
      page in {1, total, current - 1, current, current + 1}
    ensures EllipsisShown(page, current, total) ==> page !in {1, total, current - 1, current, current + 1}
  {
  }

  /** The controls are rendered only when there is more than one page. */
  predicate ControlsShown(totalPages: int) {
    totalPages > 1
  }

  /** Controls appear exactly when the contacts do not fit on one page. */
  lemma ControlsShownIffOverflow(n: nat, size: nat)
    requires size > 0
    ensures ControlsShown(TotalPages(n, size)) <==> n > size
  {
    var total := PageCount(n, size);
    if n > size {
      assert n <= total * size;
    } else if n > 0 {
      assert total == 1 by {
        assert (n + size - 1) / size == 1;
      }
    }
  }

  /** The component state. */
  class ContactListView {
    var contacts: seq<TypesContact>
    const pageSize: nat
    var currentPage: int
    var totalPages: int
    var paginatedContacts: seq<TypesContact>

    ghost predicate Valid()
      reads this
    {
      pageSize > 0 && currentPage >= 1 && totalPages >= 1
    }

    /** First render: page 1 of one, nothing sliced yet. */
    constructor(contacts: seq<TypesContact>, pageSize: nat)
      requires pageSize > 0
      ensures Valid()
      ensures this.contacts == contacts && this.pageSize == pageSize
      ensures currentPage == 1 && totalPages == 1 && paginatedContacts == []
    {
      this.contacts := contacts;
      this.pageSize := pageSize;
      currentPage := 1;
      totalPages := 1;
      paginatedContacts := [];
    }

    /** New `contacts` props from the parent. */
    method ReceiveContacts(contacts: seq<TypesContact>)
      modifies this
      requires Valid()
      ensures Valid()
      ensures this.contacts == contacts
      ensures currentPage == old(currentPage) && totalPages == old(totalPages)
      ensures paginatedContacts == old(paginatedContacts)
    {
      this.contacts := contacts;
    }

    /** The effect run when `contacts`, `pageSize` or `currentPage` change. The
        slice is taken with the page as it was when the effect started; the
        clamped page takes effect on the next run. */
    method Refresh()
      modifies this
      requires Valid()
      ensures Valid()
      ensures contacts == old(contacts)
      ensures totalPages == TotalPages(|contacts|, pageSize)
      ensures currentPage == ClampedPage(old(currentPage), |contacts|, pageSize)
      ensures paginatedContacts == PageOf(contacts, old(currentPage), pageSize)
    {
      var total := PageCount(|contacts|, pageSize);
      totalPages := if total == 0 then 1 else total;
      var page := currentPage;
      if currentPage > total && total > 0 {
        currentPage := total;
      }
      paginatedContacts := PageOf(contacts, page, pageSize);
    }

    /** `goToPage`: pages outside 1..totalPages are ignored. */
    method GoToPage(page: int)
      modifies this
      requires Valid()
      ensures Valid()
      ensures 1 <= page <= old(totalPages) ==> currentPage == page
      ensures !(1 <= page <= old(totalPages)) ==> currentPage == old(currentPage)
      ensures totalPages == old(totalPages) && contacts == old(contacts)
      ensures paginatedContacts == old(paginatedContacts)
    {
      if page >= 1 && page <= totalPages {
        currentPage := page;
      }
    }
  }
}
