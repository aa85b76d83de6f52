/** Paged lists: clamped request parameters, the offset computed in 64-bit integers, and
    pages that tile the list. */
module Paging {
  import opened Wrappers

  const TWO_TO_63: int := 0x8000_0000_0000_0000
  const TWO_TO_64: int := 0x1_0000_0000_0000_0000

  /** strconv.Atoi with its error dropped: text that is no number gives 0, a number out of
      range gives the nearest int64. */
  function Atoi(text: Option<int>): int
  {
    match text
    case None => 0
    case Some(n) => if n >= TWO_TO_63 then TWO_TO_63 - 1 else if n < -TWO_TO_63 then -TWO_TO_63 else n
  }

  method GetPaginationParams(pageText: Option<int>, sizeText: Option<int>) returns (page: int, pageSize: int)
    ensures 1 <= page < TWO_TO_63 && 1 <= pageSize <= 100
    ensures pageText.Some? && 1 <= pageText.value < TWO_TO_63 ==> page == pageText.value
    ensures sizeText.Some? && 1 <= sizeText.value <= 100 ==> pageSize == sizeText.value
    ensures pageText.None? || pageText.value < 1 ==> page == 1
    ensures sizeText.None? || !(1 <= sizeText.value <= 100) ==> pageSize == 10
    ensures page == Atoi(pageText) || (Atoi(pageText) < 1 && page == 1)
    ensures pageSize == Atoi(sizeText) || (!(1 <= Atoi(sizeText) <= 100) && pageSize == 10)
  {
    page := Atoi(pageText);
    pageSize := Atoi(sizeText);
    if page < 1 {
      page := 1;
    }
    if pageSize < 1 || pageSize > 100 {
      pageSize := 10;
    }
  }

  /** A Go int that wraps around. */
  function Wrap(n: int): int
  {
    var m := n % TWO_TO_64;
    if m < TWO_TO_63 then m else m - TWO_TO_64
  }

  function Offset(page: int, pageSize: int): int { Wrap(Wrap(page - 1) * pageSize) }

  function TotalPage(total: nat, pageSize: int): int
    requires 1 <= pageSize
  {
    (total + pageSize - 1) / pageSize
  }

  /** ORDER BY ... OFFSET LIMIT over the ordered list. */
  function Slice<T>(list: seq<T>, offset: nat, limit: nat): seq<T>
  {
    var from := if offset < |list| then offset else |list|;
    var to := if from + limit < |list| then from + limit else |list|;
    list[from..to]
  }

  function PageOf<T>(list: seq<T>, page: int, pageSize: int): seq<T>
    requires 1 <= pageSize && 0 <= Offset(page, pageSize)
  {
    Slice(list, Offset(page, pageSize), pageSize)
  }

  /** Both list queries: count, then one page of the ordered rows. What the database layer
      makes of a negative offset is given: an answer or an error. */
  method ListDocuments<T>(rows: seq<T>, page: int, pageSize: int, onNegative: Option<seq<T>>)
    returns (docs: Option<seq<T>>, total: nat, totalPage: int)
    requires 1 <= page < TWO_TO_63 && 1 <= pageSize <= 100
    ensures docs == if Offset(page, pageSize) < 0 then onNegative else Some(PageOf(rows, page, pageSize))
    ensures total == |rows|
    ensures 0 <= totalPage && (totalPage - 1) * pageSize < total + (if total == 0 then 1 else 0)
    ensures total <= totalPage * pageSize
  {
    total := |rows|;
    var offset := Wrap(Wrap(page - 1) * pageSize);
    if offset < 0 {
      docs := onNegative;
    } else {
      docs := Some(Slice(rows, offset, pageSize));
    }
    totalPage := (total + pageSize - 1) / pageSize;
    LastPage(total, pageSize);
  }

  function Prefix<T>(list: seq<T>, n: nat): seq<T> { if n < |list| then list[..n] else list }

  lemma PrefixGrows<T>(list: seq<T>, offset: nat, limit: nat)
    ensures Prefix(list, offset) + Slice(list, offset, limit) == Prefix(list, offset + limit)
  {
  }

  lemma InSlice<T>(list: seq<T>, offset: nat, limit: nat, i: nat)
    requires i < |list|
    ensures offset <= i < offset + |Slice(list, offset, limit)| <==> offset <= i < offset + limit
    ensures offset <= i < offset + limit ==> Slice(list, offset, limit)[i - offset] == list[i]
  {
  }

  /** For a clamped request the offset is the true product exactly up to this page. */
  lemma {:induction false} OffsetExactIff(page: int, pageSize: int)
    requires 1 <= page < TWO_TO_63 && 1 <= pageSize <= 100
    ensures Offset(page, pageSize) == (page - 1) * pageSize <==> page - 1 <= (TWO_TO_63 - 1) / pageSize
  {
    var product := (page - 1) * pageSize;
    assert Wrap(page - 1) == page - 1;
    assert 0 <= product;
    Quotient(page - 1, pageSize, TWO_TO_63 - 1);
    if product < TWO_TO_63 {
      assert Wrap(product) == product;
    } else {
      assert Wrap(product) < TWO_TO_63;
    }
  }

  lemma Quotient(n: nat, size: nat, bound: nat)
    requires size >= 1
    ensures n * size <= bound <==> n <= bound / size
  {
    var q := bound / size;
    assert q * size <= bound < (q + 1) * size;
    if n <= q {
      assert n * size <= q * size;
    } else {
      assert (q + 1) * size <= n * size;
    }
  }

  /** The offset is what is left of the product in 64 bits, and negative in their upper half. */
  lemma {:induction false} OffsetIs(page: int, pageSize: int)
    requires 1 <= page < TWO_TO_63 && 1 <= pageSize <= 100
    ensures var rest := (page - 1) * pageSize % TWO_TO_64;
            Offset(page, pageSize) == if rest < TWO_TO_63 then rest else rest - TWO_TO_64
  {
    assert Wrap(page - 1) == page - 1;
  }

  /** Exactly which pages show something, those beyond the last one included: the ones
      whose product leaves less than the length of the list in 64 bits. */
  lemma {:induction false} ShowsSomethingIff<T>(list: seq<T>, page: int, pageSize: int)
    requires 1 <= page < TWO_TO_63 && 1 <= pageSize <= 100 && |list| < TWO_TO_63
    ensures Offset(page, pageSize) >= 0 && PageOf(list, page, pageSize) != []
       <==> (page - 1) * pageSize % TWO_TO_64 < |list|
  {
    OffsetIs(page, pageSize);
    var offset := Offset(page, pageSize);
    if offset >= 0 {
      assert PageOf(list, page, pageSize) != [] <==> offset < |list|;
    }
  }

  /** A page so far beyond the last one that it shows the first one again, and the largest
      page number, whose offset is negative. */
  lemma OffsetWraps<T>(list: seq<T>)
    ensures Offset(0x400_0000_0000_0001, 64) == 0
    ensures PageOf(list, 0x400_0000_0000_0001, 64) == PageOf(list, 1, 64)
    ensures Offset(TWO_TO_63 - 1, 10) == -20
  {
    assert 0x400_0000_0000_0000 * 64 == TWO_TO_64;
  }

  lemma {:induction false} ExactOffset(page: int, pageSize: int)
    requires 1 <= page && 1 <= pageSize <= 100 && (page - 1) * pageSize < TWO_TO_63
    ensures Offset(page, pageSize) == (page - 1) * pageSize >= 0
  {
    Monotone(1, pageSize, page - 1);
    var product := (page - 1) * pageSize;
    assert page - 1 <= product;
    assert Wrap(page - 1) == page - 1;
    assert Wrap(product) == product;
  }

  lemma LastPage(total: nat, pageSize: int)
    requires 1 <= pageSize
    ensures var n := TotalPage(total, pageSize);
            0 <= n && (n - 1) * pageSize < total + (if total == 0 then 1 else 0) && total <= n * pageSize
  {
    var n := TotalPage(total, pageSize);
    assert n * pageSize <= total + pageSize - 1 < (n + 1) * pageSize;
    assert (n - 1) * pageSize == n * pageSize - pageSize && (n + 1) * pageSize == n * pageSize + pageSize;
  }

  lemma Monotone(a: int, b: int, size: int)
    requires a <= b && size >= 0
    ensures a * size <= b * size
  {
  }

  /** Pages 1 .. n one after the other. */
  ghost function Joined<T>(list: seq<T>, n: nat, pageSize: int): seq<T>
    requires 1 <= pageSize <= 100 && |list| < TWO_TO_63 && n <= TotalPage(|list|, pageSize)
  {
    if n == 0 then []
    else
      assert (n - 1) * pageSize < TWO_TO_63 by {
        LastPage(|list|, pageSize);
        Monotone(n - 1, TotalPage(|list|, pageSize) - 1, pageSize);
      }
      assert Offset(n, pageSize) >= 0 by { ExactOffset(n, pageSize); }
      Joined(list, n - 1, pageSize) + PageOf(list, n, pageSize)
  }

  lemma {:induction false} JoinedIsPrefix<T>(list: seq<T>, n: nat, pageSize: int)
    requires 1 <= pageSize <= 100 && |list| < TWO_TO_63 && n <= TotalPage(|list|, pageSize)
    ensures n * pageSize >= 0 && Joined(list, n, pageSize) == Prefix(list, n * pageSize)
    decreases n
  {
    if n > 0 {
      LastPage(|list|, pageSize);
      Monotone(n - 1, TotalPage(|list|, pageSize) - 1, pageSize);
      ExactOffset(n, pageSize);
      JoinedIsPrefix(list, n - 1, pageSize);
      PrefixGrows(list, (n - 1) * pageSize, pageSize);
      assert n * pageSize == (n - 1) * pageSize + pageSize;
    }
  }

  /** The pages put together are the list, and every later page whose offset does not wrap
      is empty. */
  lemma {:induction false} PagesTile<T>(list: seq<T>, pageSize: int)
    requires 1 <= pageSize <= 100 && |list| < TWO_TO_63
    ensures TotalPage(|list|, pageSize) >= 0 && Joined(list, TotalPage(|list|, pageSize), pageSize) == list
    ensures forall page: int :: TotalPage(|list|, pageSize) < page && (page - 1) * pageSize < TWO_TO_63 ==>
              Offset(page, pageSize) >= 0 && PageOf(list, page, pageSize) == []
  {
    var n := TotalPage(|list|, pageSize);
    LastPage(|list|, pageSize);
    JoinedIsPrefix(list, n, pageSize);
    forall page: int | n < page && (page - 1) * pageSize < TWO_TO_63
      ensures Offset(page, pageSize) >= 0 && PageOf(list, page, pageSize) == []
    {
      Monotone(n, page - 1, pageSize);
      ExactOffset(page, pageSize);
    }
  }

  /** Position `i` of the list is on page i/pageSize + 1 and on no other. */
  lemma {:induction false} OnOnePage<T>(list: seq<T>, i: nat, page: int, pageSize: int)
    requires 1 <= pageSize <= 100 && i < |list| < TWO_TO_63
    requires 1 <= page && (page - 1) * pageSize < TWO_TO_63
    ensures Offset(page, pageSize) >= 0
    ensures var from := Offset(page, pageSize);
            from <= i < from + |PageOf(list, page, pageSize)| <==> page == i / pageSize + 1
    ensures page == i / pageSize + 1 ==> Offset(page, pageSize) + i % pageSize == i
                                          && i % pageSize < |PageOf(list, page, pageSize)|
                                          && PageOf(list, page, pageSize)[i % pageSize] == list[i]
  {
    ExactOffset(page, pageSize);
    InSlice(list, (page - 1) * pageSize, pageSize, i);
    Position(i, page - 1, pageSize);
  }

  lemma Position(i: nat, q: int, size: int)
    requires size >= 1
    ensures q * size <= i < q * size + size <==> q == i / size
    ensures q == i / size ==> q * size + i % size == i
  {
    var r := i / size;
    assert i == r * size + i % size;
    if q < r {
      Monotone(q + 1, r, size);
      assert (q + 1) * size == q * size + size;
    } else if q > r {
      Monotone(r + 1, q, size);
      assert (r + 1) * size == r * size + size;
    }
  }
}
