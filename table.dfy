/**
 * The behaviour the Spring Data repositories share: a table is the sequence
 * of its rows in scan order; a query is a filter over it, a count query
 * counts the same condition, an `exists` query is `COUNT(..) > 0`, and
 * `save` inserts a new key or overwrites the row that has it. A page is a
 * slice of a query result together with the size of the whole result.
 */
module Table {
  import opened Common
  import opened BaseEntity

  // ------------------------------------------------------------ queries

  /** The rows of `s` that satisfy `p`, in their original order. */
  function Filter<T(!new)>(s: seq<T>, p: T -> bool): (r: seq<T>)
    ensures |r| <= |s|
    ensures forall x :: x in r <==> x in s && p(x)
  {
    if s == [] then []
    else (if p(s[0]) then [s[0]] else []) + Filter(s[1..], p)
  }

  /** `SELECT COUNT(..) WHERE p` */
  function Count<T(!new)>(s: seq<T>, p: T -> bool): (n: nat)
    ensures n <= |s|
  {
    if s == [] then 0
    else (if p(s[0]) then 1 else 0) + Count(s[1..], p)
  }

  /** `SELECT COUNT(..) > 0 WHERE p` */
  predicate Exists<T(!new)>(s: seq<T>, p: T -> bool) {
    Count(s, p) > 0
  }

  /** The first row satisfying `p`, as an Optional. */
  function FindFirst<T(!new)>(s: seq<T>, p: T -> bool): (r: Option<T>)
    ensures r.Some? ==> r.value in s && p(r.value)
    ensures r.None? <==> forall x :: x in s ==> !p(x)
  {
    if s == [] then None
    else if p(s[0]) then Some(s[0])
    else FindFirst(s[1..], p)
  }

  /** Applying a converter to every element of a list (stream().map()). */
  function Map<T, U>(s: seq<T>, f: T -> U): (r: seq<U>)
    ensures |r| == |s|
    ensures forall i :: 0 <= i < |s| ==> r[i] == f(s[i])
  {
    seq(|s|, i requires 0 <= i < |s| => f(s[i]))
  }

  /** A count query counts exactly the rows the matching list query returns. */
  lemma {:induction false} CountIsFilterLength<T(!new)>(s: seq<T>, p: T -> bool)
    ensures Count(s, p) == |Filter(s, p)|
  {
    if s != [] {
      CountIsFilterLength(s[1..], p);
    }
  }

  /** An exists query holds exactly when some row satisfies the condition. */
  lemma {:induction false} ExistsIff<T(!new)>(s: seq<T>, p: T -> bool)
    ensures Exists(s, p) <==> exists x :: x in s && p(x)
  {
    if s != [] {
      ExistsIff(s[1..], p);
      assert forall x :: x in s <==> x == s[0] || x in s[1..];
    }
  }

  /** An Optional finder is present exactly when the exists query holds. */
  lemma FindFirstIffExists<T(!new)>(s: seq<T>, p: T -> bool)
    ensures FindFirst(s, p).Some? <==> Exists(s, p)
  {
    ExistsIff(s, p);
  }

  /** Filtering by p and then by q is filtering by their conjunction pq. */
  lemma {:induction false} FilterFilter<T(!new)>(s: seq<T>, p: T -> bool, q: T -> bool, pq: T -> bool)
    requires forall x :: pq(x) == (p(x) && q(x))
    ensures Filter(Filter(s, p), q) == Filter(s, pq)
  {
    if s != [] {
      FilterFilter(s[1..], p, q, pq);
      var head := if p(s[0]) then [s[0]] else [];
      FilterAppend(head, Filter(s[1..], p), q);
      if p(s[0]) {
        assert [s[0]][1..] == [];
      }
    }
  }

  /** Conditions that agree on every row select the same rows. */
  lemma {:induction false} FilterSameCondition<T(!new)>(s: seq<T>, p: T -> bool, q: T -> bool)
    requires forall x :: x in s ==> p(x) == q(x)
    ensures Filter(s, p) == Filter(s, q)
  {
    if s != [] {
      FilterSameCondition(s[1..], p, q);
    }
  }

  /** Filtering distributes over concatenation. */
  lemma {:induction false} FilterAppend<T(!new)>(a: seq<T>, b: seq<T>, p: T -> bool)
    ensures Filter(a + b, p) == Filter(a, p) + Filter(b, p)
  {
    if a != [] {
      assert (a + b)[1..] == a[1..] + b;
      FilterAppend(a[1..], b, p);
    } else {
      assert a + b == b;
    }
  }

  /** Counting a conjunction never exceeds counting either conjunct. */
  lemma {:induction false} CountMonotone<T(!new)>(s: seq<T>, p: T -> bool, q: T -> bool)
    requires forall x :: x in s && q(x) ==> p(x)
    ensures Count(s, q) <= Count(s, p)
  {
    if s != [] {
      CountMonotone(s[1..], p, q);
    }
  }

  // ------------------------------------------------------- keys and save

  /** No two rows of the table share a key. */
  ghost predicate DistinctIds<D(!new)>(t: seq<Row<D>>) {
    forall i, j :: 0 <= i < j < |t| ==> t[i].Id() != t[j].Id()
  }

  /** Position of the row with key `id`, if any. */
  function IndexOfId<D(!new)>(t: seq<Row<D>>, id: Id): (r: Option<nat>)
    ensures r.Some? ==> r.value < |t| && t[r.value].Id() == id
                        && forall k :: 0 <= k < r.value ==> t[k].Id() != id
    ensures r.None? ==> forall x :: x in t ==> x.Id() != id
  {
    if t == [] then None
    else if t[0].Id() == id then Some(0)
    else match IndexOfId(t[1..], id)
      case None => None
      case Some(k) => Some(k + 1)
  }

  /** JpaRepository.findById: the row with that key, deleted or not. */
  function FindById<D(!new)>(t: seq<Row<D>>, id: Id): (r: Option<Row<D>>)
    ensures r.Some? ==> r.value in t && r.value.Id() == id
    ensures r.None? <==> forall x :: x in t ==> x.Id() != id
  {
    match IndexOfId(t, id)
    case None => None
    case Some(i) => Some(t[i])
  }

  /** `findByIdAndDeletedAtIsNull` / `findByIdAndActive`. */
  function FindActiveById<D(!new)>(t: seq<Row<D>>, id: Id): (r: Option<Row<D>>)
    ensures r.Some? ==> r.value in t && r.value.Id() == id && r.value.IsActive()
    ensures r.None? <==> forall x :: x in t && x.Id() == id ==> x.IsDeleted()
  {
    FindFirst(t, (x: Row<D>) => x.Id() == id && x.IsActive())
  }

  /** With distinct keys, the active finder is findById restricted to live rows. */
  lemma ActiveFinderIsFindById<D(!new)>(t: seq<Row<D>>, id: Id)
    requires DistinctIds(t)
    ensures FindActiveById(t, id) == (if FindById(t, id).Some? && FindById(t, id).value.IsActive()
                                      then FindById(t, id) else None)
  {
    var r := FindActiveById(t, id);
    if r.Some? {
      var i :| 0 <= i < |t| && t[i] == r.value;
      var j := IndexOfId(t, id).value;
      assert i == j by {
        if i < j {} else if j < i {}
      }
    }
  }

  /**
   * A new entity as its first save stores it: the generated key, both audit
   * stamps at the clock reading `now` (@CreatedDate, @LastModifiedDate), live.
   */
  function Inserted<D>(id: Id, now: Instant, data: D): (r: Row<D>)
    ensures r.Id() == id && r.IsActive() && r.data == data
    ensures r.base.createdAt == now && r.base.updatedAt == now
  {
    Row(Audit(id, now, now, None), data)
  }

  /**
   * JpaRepository.save: overwrite the row holding the same key, or append
   * the row when its key is new. Afterwards the key finds the saved row and
   * every other key finds what it found before.
   */
  function Save<D(!new)>(t: seq<Row<D>>, row: Row<D>): (r: seq<Row<D>>)
    ensures FindById(r, row.Id()) == Some(row)
    ensures forall id :: id != row.Id() ==> FindById(r, id) == FindById(t, id)
    ensures |r| == |t| + (if FindById(t, row.Id()).Some? then 0 else 1)
  {
    match IndexOfId(t, row.Id())
    case Some(i) =>
      var r := t[i := row];
      assert IndexOfId(r, row.Id()) == Some(i) by { IndexAfterUpdate(t, i, row, row.Id()); }
      assert forall id :: id != row.Id() ==> IndexOfId(r, id) == IndexOfId(t, id) by {
        forall id | id != row.Id() {
          IndexAfterUpdate(t, i, row, id);
        }
      }
      r
    case None =>
      var r := t + [row];
      assert forall id :: IndexOfId(r, id) == (if IndexOfId(t, id).Some? then IndexOfId(t, id)
                                              else if id == row.Id() then Some(|t|) else None) by {
        forall id {
          IndexAfterAppend(t, row, id);
        }
      }
      r
  }

  lemma {:induction false} IndexAfterUpdate<D(!new)>(t: seq<Row<D>>, i: nat, row: Row<D>, id: Id)
    requires i < |t| && t[i].Id() == row.Id()
    requires IndexOfId(t, row.Id()) == Some(i)
    ensures IndexOfId(t[i := row], id) == IndexOfId(t, id)
  {
    if i > 0 {
      assert t[i := row][1..] == t[1..][i - 1 := row];
      if t[0].Id() != id {
        IndexAfterUpdate(t[1..], i - 1, row, id);
      }
    }
  }

  lemma {:induction false} IndexAfterAppend<D(!new)>(t: seq<Row<D>>, row: Row<D>, id: Id)
    requires IndexOfId(t, row.Id()).None?
    ensures IndexOfId(t + [row], id) == (if IndexOfId(t, id).Some? then IndexOfId(t, id)
                                         else if id == row.Id() then Some(|t|) else None)
  {
    if t != [] {
      assert (t + [row])[1..] == t[1..] + [row];
      IndexAfterAppend(t[1..], row, id);
    }
  }

  /**
   * With distinct keys, the rows after a save are the saved row and the
   * old rows with any other key; keys stay distinct.
   */
  lemma SaveContents<D(!new)>(t: seq<Row<D>>, row: Row<D>)
    requires DistinctIds(t)
    ensures DistinctIds(Save(t, row))
    ensures forall x :: x in Save(t, row) <==> x == row || (x in t && x.Id() != row.Id())
  {
    match IndexOfId(t, row.Id())
    case Some(i) =>
      var r := t[i := row];
      forall x | x in t && x.Id() != row.Id()
        ensures x in r
      {
        var k :| 0 <= k < |t| && t[k] == x;
        assert r[k] == x;
      }
    case None =>
  }

  // --------------------------------------------------------------- pages

  /** A page of a query result (PageImpl): its slice and the full count. */
  datatype Page<T> = Page(content: seq<T>, number: nat, size: nat, totalElements: nat)
  {
    /** PageImpl.getTotalPages(): one page when the size is zero, else ceil. */
    function TotalPages(): nat {
      if size == 0 then 1 else (totalElements + size - 1) / size
    }
  }

  /** PageRequest rejects a page size below one. */
  type PageSize = n: nat | n > 0 witness 1

  /** A page request: which page, and how many rows per page. */
  datatype Pageable = Pageable(number: nat, size: PageSize)

  function Min(a: int, b: int): int {
    if a <= b then a else b
  }

  /**
   * The page `number` of size `size` of a query result: the rows at
   * positions [number * size, (number + 1) * size), and the whole count.
   */
  function PageOf<T(!new)>(s: seq<T>, req: Pageable): (p: Page<T>)
    ensures |p.content| <= req.size && p.totalElements == |s|
    ensures p.number == req.number && p.size == req.size
    ensures req.number * req.size < |s| ==>
              p.content == s[req.number * req.size .. Min((req.number + 1) * req.size, |s|)]
    ensures req.number * req.size >= |s| ==> p.content == []
  {
    var lo := Min(req.number * req.size, |s|);
    var hi := Min((req.number + 1) * req.size, |s|);
    Page(s[lo..hi], req.number, req.size, |s|)
  }

  /** A page holds only rows of the result it is cut from. */
  lemma PageWithin<T(!new)>(s: seq<T>, req: Pageable)
    ensures forall x :: x in PageOf(s, req).content ==> x in s
  {
    var p := PageOf(s, req);
    forall x | x in p.content
      ensures x in s
    {
      var k :| 0 <= k < |p.content| && p.content[k] == x;
      var lo := Min(req.number * req.size, |s|);
      assert p.content == s[lo..Min((req.number + 1) * req.size, |s|)];
      assert s[lo + k] == x;
    }
  }

  /** Page.map: convert the content, keep the position and the full count. */
  function MapPage<T, U>(p: Page<T>, f: T -> U): (q: Page<U>)
    ensures |q.content| == |p.content| && q.number == p.number
    ensures q.size == p.size && q.totalElements == p.totalElements
    ensures forall i :: 0 <= i < |p.content| ==> q.content[i] == f(p.content[i])
  {
    Page(Map(p.content, f), p.number, p.size, p.totalElements)
  }

  /** The contents of pages `from`, `from + 1`, … up to the last page, in order. */
  function PagesFrom<T(!new)>(s: seq<T>, size: PageSize, from: nat): seq<T>
    decreases |s| - from * size
  {
    if from * size >= |s| then []
    else PageOf(s, Pageable(from, size)).content + PagesFrom(s, size, from + 1)
  }

  /** Reading every page in turn gives back the whole result, once, in order. */
  lemma {:induction false} PagesCoverResult<T(!new)>(s: seq<T>, size: PageSize, from: nat)
    requires from * size <= |s|
    ensures PagesFrom(s, size, from) == s[from * size..]
    decreases |s| - from * size
  {
    var lo := from * size;
    assert (from + 1) * size == lo + size;
    if lo < |s| {
      var hi := Min(lo + size, |s|);
      assert PageOf(s, Pageable(from, size)).content == s[lo..hi];
      if lo + size <= |s| {
        PagesCoverResult(s, size, from + 1);
        assert s[lo..] == s[lo..hi] + s[hi..];
      } else {
        assert PagesFrom(s, size, from + 1) == [];
        assert s[lo..] == s[lo..hi];
      }
    }
  }

  lemma MulMonotone(a: nat, b: nat, c: nat)
    requires a <= b
    ensures a * c <= b * c
  {
  }

  /** The number of pages is the least count of pages that holds the result. */
  lemma TotalPagesBounds<T(!new)>(s: seq<T>, req: Pageable)
    ensures PageOf(s, req).TotalPages() * req.size >= |s|
    ensures req.number < PageOf(s, req).TotalPages() <==> req.number * req.size < |s|
  {
    var number, size := req.number, req.size;
    var n := PageOf(s, req).TotalPages();
    var m := |s| + size - 1;
    var rem := m % size;
    assert n == m / size;
    assert m == n * size + rem && 0 <= rem < size;
    assert n * size >= |s|;
    if number < n {
      MulMonotone(number, n - 1, size);
      assert (n - 1) * size == n * size - size;
    } else {
      MulMonotone(n, number, size);
    }
  }
}
