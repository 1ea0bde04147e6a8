/**
 The review API's candidate service: a page of the candidate list, and
 the two status changes an administrator makes from the dashboard. The
 page arithmetic is Java int arithmetic, and the slice is taken with
 List.subList, whose range checks throw.
 */
module CandidateService {
  import opened Wrappers
  import opened Time
  import opened Store
  import opened JavaInt
  import opened Candidates

  /* CandidatePageDTO: the page's content and where it lies in the whole list. */
  datatype Page<T> = Page(content: seq<T>, totalElements: int, totalPages: int, page: int, size: int)

  /*
   (int) Math.ceil((double) total / size). The quotient of two ints is
   close enough to exact in a double that its ceiling is the true one; a
   zero size divides to infinity (cast to the largest int) or, for an
   empty list, to NaN (cast to 0).
   */
  function TotalPages(total: nat, size: int): (r: int)
    ensures size > 0 ==> 0 <= r && total <= r * size && (r - 1) * size < total
    ensures size == 0 ==> r == (if total == 0 then 0 else IntMax)
    ensures size < 0 ==> r <= 0
  {
    if size == 0 then (if total == 0 then 0 else IntMax)
    else if size > 0 then
      var r := (total + size - 1) / size;
      CeilingBounds(total, size, r);
      r
    else -(total / -size)
  }

  /* The rounded-up quotient is the least page count that holds the whole list. */
  lemma CeilingBounds(total: nat, size: int, r: int)
    requires size > 0 && r == (total + size - 1) / size
    ensures 0 <= r && total <= r * size && (r - 1) * size < total
  {
    var x := total + size - 1;
    assert r * size <= x < r * size + size;
    assert (r - 1) * size == r * size - size;
  }

  /* The index range checks of List.subList. */
  function SubList<T>(xs: seq<T>, from: int, to: int): (r: Result<seq<T>>)
    ensures r.Ok? <==> 0 <= from <= to <= |xs|
    ensures r.Ok? ==> r.value == xs[from..to]
  {
    if from < 0 then Fail(IndexOutOfBounds("fromIndex = " + IntText(from)))
    else if to > |xs| then Fail(IndexOutOfBounds("toIndex = " + IntText(to)))
    else if from > to then Fail(IllegalArgument("fromIndex(" + IntText(from) + ") > toIndex(" + IntText(to) + ")"))
    else Ok(xs[from..to])
  }

  function Min(a: int, b: int): int {
    if a <= b then a else b
  }

  /*
   The pagination of listCandidates over the repository's list. Without
   overflow a page holds the elements from page*size up to (page+1)*size
   that exist; an index pushed past the int range, or a negative size,
   makes subList throw.
   */
  function Paginate<T>(all: seq<T>, page: int, size: int): (r: Result<Page<T>>)
    requires IsInt32(page) && IsInt32(size) && |all| <= IntMax
    ensures r.Ok? ==> r.value.totalElements == |all| && r.value.totalPages == TotalPages(|all|, size)
    ensures r.Ok? ==> r.value.page == page && r.value.size == size
    ensures r.Ok? && size > 0 ==> |r.value.content| <= size
    ensures size < 0 && 0 <= Wrap32(page * size) < |all| ==> r.Fail?
    ensures Wrap32(page * size) < 0 && |all| > 0 ==> r == Fail(IndexOutOfBounds("fromIndex = " + IntText(Wrap32(page * size))))
  {
    PageFrom(all, Wrap32(page * size), page, size)
  }

  /* The page that starts at the already computed int offset `from`. */
  function PageFrom<T>(all: seq<T>, from: int, page: int, size: int): (r: Result<Page<T>>)
    requires IsInt32(from) && IsInt32(size) && |all| <= IntMax
    ensures r.Ok? ==> r.value.totalElements == |all| && r.value.totalPages == TotalPages(|all|, size)
    ensures r.Ok? ==> r.value.page == page && r.value.size == size
    ensures r.Ok? && size > 0 ==> |r.value.content| <= size
    ensures size < 0 && 0 <= from < |all| ==> r.Fail?
    ensures from < 0 && |all| > 0 ==> r == Fail(IndexOutOfBounds("fromIndex = " + IntText(from)))
    ensures 0 < size && 0 <= from && from + size <= IntMax ==>
      r == Ok(Page(all[Min(from, |all|)..Min(from + size, |all|)], |all|, TotalPages(|all|, size), page, size))
  {
    var total := |all|;
    var to := Min(Wrap32(from + size), total);
    if from < total then
      var content :- SubList(all, from, to);
      Ok(Page(content, total, TotalPages(total, size), page, size))
    else Ok(Page(all[total..total], total, TotalPages(total, size), page, size))
  }

  /* Without overflow, a page holds the elements from page*size up to (page+1)*size that exist. */
  lemma PageContents<T>(all: seq<T>, page: int, size: int)
    requires IsInt32(page) && IsInt32(size) && |all| <= IntMax
    requires 0 < size && 0 <= page && page * size + size <= IntMax
    ensures Paginate(all, page, size).Ok?
    ensures Paginate(all, page, size).value.content == all[Min(page * size, |all|)..Min(page * size + size, |all|)]
  {
    MulNonneg(page, size);
    var from := page * size;
    assert Wrap32(from) == from;
  }

  /* The contents of pages 0 to k-1, one after the other. */
  function Concat<T>(pageOf: nat -> seq<T>, k: nat): seq<T> {
    if k == 0 then [] else Concat(pageOf, k - 1) + pageOf(k - 1)
  }

  /* Where page j starts: j times the size, added up page by page. */
  function Start(j: nat, size: nat): nat {
    if j == 0 then 0 else Start(j - 1, size) + size
  }

  lemma {:induction false} StartIsProduct(j: nat, size: nat)
    ensures Start(j, size) == j * size
  {
    if j > 0 {
      StartIsProduct(j - 1, size);
      assert (j - 1) * size + size == j * size;
    }
  }

  /* `page` is page j of xs: the slice from Start(j, size), size long, both ends cut at the list's end. */
  ghost predicate IsPage<T>(xs: seq<T>, page: seq<T>, j: nat, size: nat) {
    page == xs[Min(Start(j, size), |xs|)..Min(Start(j, size) + size, |xs|)]
  }

  /* Consecutive pages of a list concatenate to its prefix. */
  lemma {:induction false} ConcatSlices<T>(xs: seq<T>, pageOf: nat -> seq<T>, size: nat, k: nat)
    requires forall j: nat :: j < k ==> IsPage(xs, pageOf(j), j, size)
    ensures Concat(pageOf, k) == xs[..Min(Start(k, size), |xs|)]
  {
    if k > 0 {
      ConcatSlices(xs, pageOf, size, k - 1);
      ConcatStep(xs, pageOf, size, k);
    }
  }

  lemma ConcatStep<T>(xs: seq<T>, pageOf: nat -> seq<T>, size: nat, k: nat)
    requires k > 0 && Concat(pageOf, k - 1) == xs[..Min(Start(k - 1, size), |xs|)]
    requires IsPage(xs, pageOf(k - 1), k - 1, size)
    ensures Concat(pageOf, k) == xs[..Min(Start(k, size), |xs|)]
  {
    PrefixThenSlice(xs, Concat(pageOf, k - 1), pageOf(k - 1), Start(k - 1, size), size);
  }

  /* A prefix up to p followed by the slice from p, size long, is the prefix up to p + size, all cut at the list's end. */
  lemma PrefixThenSlice<T>(xs: seq<T>, before: seq<T>, slice: seq<T>, p: nat, size: nat)
    requires before == xs[..Min(p, |xs|)] && slice == xs[Min(p, |xs|)..Min(p + size, |xs|)]
    ensures before + slice == xs[..Min(p + size, |xs|)]
  {
  }

  /* The contents of page j as the service returns them; a page whose end passes the int range is never walked here. */
  function PageContent<T>(all: seq<T>, size: int, j: nat): seq<T> {
    if 0 < size && IsInt32(size) && |all| <= IntMax && j * size + size <= IntMax then
      MulMonotone(size, 1, j + 1);
      PageContents(all, j, size);
      Paginate(all, j, size).value.content
    else []
  }

  /* The first k pages, one after the other. */
  function PagesUpTo<T>(all: seq<T>, size: int, k: nat): seq<T> {
    Concat((j: nat) => PageContent(all, size, j), k)
  }

  /* The first k pages are exactly the list's first k*size elements. */
  lemma PagesUpToIsPrefix<T>(all: seq<T>, size: int, k: nat)
    requires 0 < size && IsInt32(size) && |all| <= IntMax && k * size <= IntMax
    ensures PagesUpTo(all, size, k) == all[..Min(k * size, |all|)]
  {
    var pageOf := (j: nat) => PageContent(all, size, j);
    forall j: nat | j < k
      ensures IsPage(all, pageOf(j), j, size)
    {
      StartIsProduct(j, size);
      MulMonotone(size, j + 1, k);
      MulMonotone(size, 1, j + 1);
      PageContents(all, j, size);
    }
    ConcatSlices(all, pageOf, size, k);
    StartIsProduct(k, size);
  }

  /* Walking every page in turn reproduces the whole list once. */
  lemma PagesCoverList<T>(all: seq<T>, size: int)
    requires 0 < size && IsInt32(size) && |all| <= IntMax
    requires TotalPages(|all|, size) * size <= IntMax
    ensures PagesUpTo(all, size, TotalPages(|all|, size)) == all
  {
    PagesUpToIsPrefix(all, size, TotalPages(|all|, size));
  }

  /* A page at or after the last one, reached without overflow, is empty. */
  lemma PagePastEndIsEmpty<T>(all: seq<T>, page: int, size: int)
    requires IsInt32(page) && 0 < size && IsInt32(size) && |all| <= IntMax
    requires TotalPages(|all|, size) <= page && page * size <= IntMax
    ensures Paginate(all, page, size).Ok? && Paginate(all, page, size).value.content == []
  {
    MulMonotone(size, TotalPages(|all|, size), page);
    assert page * size >= 0;
  }

  lemma MulMonotone(k: int, x: int, y: int)
    requires k > 0 && x <= y
    ensures x * k <= y * k
  {
    assert y * k - x * k == (y - x) * k;
  }

  /* A far page whose offset passes the int range wraps negative and throws instead of being empty. */
  lemma FarPageThrows(x: int)
    ensures Paginate([x], 0x4000_0000, 2) == Fail(IndexOutOfBounds("fromIndex = " + IntText(IntMin)))
  {
    assert Wrap32(0x4000_0000 * 2) == IntMin;
  }

  /* A negative size on the first page throws from subList. */
  lemma NegativeSizeThrows(x: int)
    ensures Paginate([x], 0, -1) == Fail(IllegalArgument("fromIndex(" + IntText(0) + ") > toIndex(" + IntText(-1) + ")"))
  {
  }

  function NotFoundWithId(id: Uuid): Exception {
    IllegalArgument("Candidate not found with id: " + Digits(id))
  }

  /* approveCandidate: anything but an APPROVED candidate becomes APPROVED; nothing else is touched. */
  function ApproveCandidate(t: CandidateTable, id: Uuid): (r: Result<CandidateTable>)
    ensures r.Ok? <==> id in t && t[id].status != Some(APPROVED)
    ensures id !in t ==> r == Fail(NotFoundWithId(id))
    ensures id in t && t[id].status == Some(APPROVED) ==> r == Fail(IllegalArgument("Candidate is already approved"))
    ensures r.Ok? ==> OnlyRecordChanged(t, r.value, id) && r.value[id] == t[id].(status := Some(APPROVED))
  {
    if id !in t then Fail(NotFoundWithId(id))
    else if t[id].status == Some(APPROVED) then Fail(IllegalArgument("Candidate is already approved"))
    else Ok(t[id := t[id].(status := Some(APPROVED))])
  }

  /* rejectCandidate: anything but a REJECTED candidate becomes REJECTED; the domain is not blacklisted. */
  function RejectCandidate(t: CandidateTable, id: Uuid): (r: Result<CandidateTable>)
    ensures r.Ok? <==> id in t && t[id].status != Some(REJECTED)
    ensures id !in t ==> r == Fail(NotFoundWithId(id))
    ensures id in t && t[id].status == Some(REJECTED) ==> r == Fail(IllegalArgument("Candidate is already rejected"))
    ensures r.Ok? ==> OnlyRecordChanged(t, r.value, id) && r.value[id] == t[id].(status := Some(REJECTED))
  {
    if id !in t then Fail(NotFoundWithId(id))
    else if t[id].status == Some(REJECTED) then Fail(IllegalArgument("Candidate is already rejected"))
    else Ok(t[id := t[id].(status := Some(REJECTED))])
  }

  /* A decision can be reversed: approving a rejected candidate, then rejecting it, gives back the rejected record. */
  lemma ApproveThenRejectRestores(t: CandidateTable, id: Uuid)
    requires id in t && t[id].status == Some(REJECTED)
    ensures ApproveCandidate(t, id).Ok?
    ensures RejectCandidate(ApproveCandidate(t, id).value, id) == Ok(t)
  {
    var approved := ApproveCandidate(t, id).value;
    assert approved[id := approved[id].(status := Some(REJECTED))] == t;
  }
}
