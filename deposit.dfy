/** The executor's deposit listing: optional filters, ordering by sequence,
    an offset/limit page window and the next-page rule. */
module DepositTxService {
  import opened Wrappers

  /** A deposit row as far as the listing reads it; its other columns are
      carried along unread. */
  datatype DepositTxEntity = DepositTxEntity(sequence: int, sender: string, details: string)

  datatype GetDepositTxListParam = GetDepositTxListParam(
    sequence: Option<int>, address: Option<string>, offset: Option<nat>, limit: nat, descending: string)

  datatype GetDepositTxListResponse = GetDepositTxListResponse(
    count: nat, next: Option<nat>, limit: nat, depositTxList: seq<DepositTxEntity>)

  datatype Order = Asc | Desc

  /** Descending exactly when the flag is the string "true". */
  function OrderOf(descending: string): (o: Order)
    ensures o == Desc <==> descending == "true"
  {
    if descending == "true" then Desc else Asc
  }

  /** The sequence filter applies only to a truthy (non-zero) sequence, the
      sender filter only to a non-empty address. */
  predicate Matches(param: GetDepositTxListParam, tx: DepositTxEntity)
  {
    && (param.sequence.Some? && param.sequence.value != 0 ==> tx.sequence == param.sequence.value)
    && (param.address.Some? && param.address.value != "" ==> tx.sender == param.address.value)
  }

  /** The rows the filters keep, in their original order. */
  function Filter(rows: seq<DepositTxEntity>, param: GetDepositTxListParam): (r: seq<DepositTxEntity>)
    ensures forall x :: multiset(r)[x] == if Matches(param, x) then multiset(rows)[x] else 0
  {
    if rows == [] then []
    else
      assert rows == [rows[0]] + rows[1..];
      (if Matches(param, rows[0]) then [rows[0]] else []) + Filter(rows[1..], param)
  }

  predicate InOrder(a: DepositTxEntity, b: DepositTxEntity, order: Order)
  {
    if order == Asc then a.sequence <= b.sequence else a.sequence >= b.sequence
  }

  predicate Sorted(s: seq<DepositTxEntity>, order: Order)
  {
    forall i, j :: 0 <= i < j < |s| ==> InOrder(s[i], s[j], order)
  }

  function Insert(x: DepositTxEntity, s: seq<DepositTxEntity>, order: Order): (r: seq<DepositTxEntity>)
    requires Sorted(s, order)
    ensures Sorted(r, order)
    ensures multiset(r) == multiset(s) + multiset{x}
  {
    if s == [] then [x]
    else if InOrder(x, s[0], order) then
      ConsSorted(x, s, order);
      [x] + s
    else
      var rest := Insert(x, s[1..], order);
      assert s == [s[0]] + s[1..];
      HeadBeforeInserted(x, s, rest, order);
      ConsSorted(s[0], rest, order);
      [s[0]] + rest
  }

  /** Putting `h` in front of a sorted sequence keeps it sorted when `h`
      comes before its first element. */
  lemma ConsSorted(h: DepositTxEntity, t: seq<DepositTxEntity>, order: Order)
    requires Sorted(t, order)
    requires t != [] ==> InOrder(h, t[0], order)
    ensures Sorted([h] + t, order)
  {
    forall i, j | 0 <= i < j < |[h] + t| ensures InOrder(([h] + t)[i], ([h] + t)[j], order) {
      if i == 0 {
        assert ([h] + t)[j] == t[j - 1];
        if j > 1 {
          assert InOrder(t[0], t[j - 1], order);
        }
      }
    }
  }

  /** When `x` goes after the head of `s`, that head comes before every
      element of the rest with `x` inserted. */
  lemma HeadBeforeInserted(x: DepositTxEntity, s: seq<DepositTxEntity>, rest: seq<DepositTxEntity>, order: Order)
    requires s != [] && Sorted(s, order) && !InOrder(x, s[0], order)
    requires multiset(rest) == multiset(s[1..]) + multiset{x}
    ensures rest != [] ==> InOrder(s[0], rest[0], order)
  {
    if rest != [] {
      assert rest[0] in multiset(rest);
      if rest[0] != x {
        assert rest[0] in multiset(s[1..]);
        var j :| 0 <= j < |s[1..]| && s[1..][j] == rest[0];
        assert s[j + 1] == rest[0];
      }
    }
  }

  /** The rows ordered by sequence in the given direction. */
  function SortBySequence(s: seq<DepositTxEntity>, order: Order): (r: seq<DepositTxEntity>)
    ensures Sorted(r, order)
    ensures multiset(r) == multiset(s)
  {
    if s == [] then []
    else
      assert s == [s[0]] + s[1..];
      Insert(s[0], SortBySequence(s[1..], order), order)
  }

  /** `skip(skip)` followed by `take(take)`. */
  function Window(s: seq<DepositTxEntity>, skip: nat, take: nat): (w: seq<DepositTxEntity>)
    ensures |w| <= take
    ensures w == s[Min(skip, |s|)..Min(skip + take, |s|)]
  {
    if skip >= |s| then [] else if skip + take >= |s| then s[skip..] else s[skip..skip + take]
  }

  function Min(a: nat, b: nat): nat { if a <= b then a else b }

  /** The filtered rows in listing order, before windowing. */
  function Listing(rows: seq<DepositTxEntity>, param: GetDepositTxListParam): (r: seq<DepositTxEntity>)
    ensures Sorted(r, OrderOf(param.descending))
    ensures multiset(r) == multiset(Filter(rows, param))
  {
    SortBySequence(Filter(rows, param), OrderOf(param.descending))
  }

  /** One page of the deposit listing. */
  function GetDepositTxList(rows: seq<DepositTxEntity>, param: GetDepositTxListParam)
    : (resp: GetDepositTxListResponse)
    ensures resp.limit == param.limit
    ensures |resp.depositTxList| <= param.limit
    ensures forall x :: x in resp.depositTxList ==> x in rows && Matches(param, x)
    ensures Sorted(resp.depositTxList, OrderOf(param.descending))
    ensures resp.count == |Listing(rows, param)|
    ensures resp.next.Some? ==> resp.next.value == (if param.offset.Some? then param.offset.value else 0) + 1
  {
    var offset := if param.offset.Some? then param.offset.value else 0;
    var limit := param.limit;
    var filtered := Filter(rows, param);
    var sorted := Listing(rows, param);
    var depositTxList := Window(sorted, PageStart(offset, limit), limit);
    ListingFacts(rows, param, PageStart(offset, limit), limit);
    var count := |filtered|;
    var next := if count > PageStart(offset + 1, limit) then Some(offset + 1) else None;
    GetDepositTxListResponse(count, next, limit, depositTxList)
  }

  /** Where page `offset` starts: `offset` pages of `limit` rows each. */
  function PageStart(offset: nat, limit: nat): nat
  {
    if offset == 0 then 0 else PageStart(offset - 1, limit) + limit
  }

  /** The page start is the product `offset * limit`. */
  lemma {:induction false} PageStartIsProduct(offset: nat, limit: nat)
    ensures PageStart(offset, limit) == offset * limit
  {
    if offset > 0 {
      PageStartIsProduct(offset - 1, limit);
      assert (offset - 1) * limit + limit == offset * limit;
    }
  }

  /** A window of the listing holds matching rows in order, and the listing
      is as long as the filtered rows. */
  lemma ListingFacts(rows: seq<DepositTxEntity>, param: GetDepositTxListParam, skip: nat, take: nat)
    ensures |Listing(rows, param)| == |Filter(rows, param)|
    ensures Sorted(Window(Listing(rows, param), skip, take), OrderOf(param.descending))
    ensures forall x :: x in Window(Listing(rows, param), skip, take) ==> x in rows && Matches(param, x)
  {
    var s := Listing(rows, param);
    ListingIsFiltered(rows, param);
    var a, b := Min(skip, |s|), Min(skip + take, |s|);
    SliceSorted(s, a, b, OrderOf(param.descending));
    forall x | x in s[a..b] ensures x in s {
      SliceMember(s, a, b, x);
    }
  }

  /** The listing holds exactly as many rows as the filter keeps, each a
      matching row of the table. */
  lemma ListingIsFiltered(rows: seq<DepositTxEntity>, param: GetDepositTxListParam)
    ensures |Listing(rows, param)| == |Filter(rows, param)|
    ensures forall x :: x in Listing(rows, param) ==> x in rows && Matches(param, x)
  {
    var s := Listing(rows, param);
    var f := Filter(rows, param);
    assert |multiset(s)| == |multiset(f)|;
    forall x | x in s ensures x in rows && Matches(param, x) {
      assert x in multiset(s);
      assert multiset(f)[x] > 0;
    }
  }

  lemma SliceSorted(s: seq<DepositTxEntity>, a: nat, b: nat, order: Order)
    requires a <= b <= |s| && Sorted(s, order)
    ensures Sorted(s[a..b], order)
  {
    forall i, j | 0 <= i < j < b - a ensures InOrder(s[a..b][i], s[a..b][j], order) {
      assert s[a..b][i] == s[a + i] && s[a..b][j] == s[a + j];
    }
  }

  lemma SliceMember<T>(s: seq<T>, a: nat, b: nat, x: T)
    requires a <= b <= |s| && x in s[a..b]
    ensures x in s
  {
    var i :| 0 <= i < b - a && s[a..b][i] == x;
    assert s[a + i] == x;
  }

  /** The filters read only the sequence and address parameters. */
  lemma {:induction false} FilterIgnoresPage(rows: seq<DepositTxEntity>, p: GetDepositTxListParam,
                                             q: GetDepositTxListParam)
    requires p.sequence == q.sequence && p.address == q.address
    ensures Filter(rows, p) == Filter(rows, q)
  {
    if rows != [] {
      FilterIgnoresPage(rows[1..], p, q);
    }
  }

  /** Page `o` is the window of the listing that starts `o` pages in, and a
      next page is announced exactly when the listing reaches past the end of
      this page. */
  lemma PageIsWindow(rows: seq<DepositTxEntity>, param: GetDepositTxListParam, o: nat)
    requires param.offset == Some(o) || (param.offset.None? && o == 0)
    ensures GetDepositTxList(rows, param).depositTxList
            == Window(Listing(rows, param), PageStart(o, param.limit), param.limit)
    ensures GetDepositTxList(rows, param).next.Some?
            <==> |Listing(rows, param)| > PageStart(o + 1, param.limit)
  {
    ListingFacts(rows, param, 0, 0);
  }

  /** There is a next page exactly when the page after this one is non-empty. */
  lemma NextPageNonEmpty(rows: seq<DepositTxEntity>, param: GetDepositTxListParam, o: nat)
    requires param.limit > 0
    requires param.offset == Some(o) || (param.offset.None? && o == 0)
    ensures GetDepositTxList(rows, param).next.Some?
            <==> GetDepositTxList(rows, param.(offset := Some(o + 1))).depositTxList != []
  {
    var p' := param.(offset := Some(o + 1));
    FilterIgnoresPage(rows, param, p');
    PageIsWindow(rows, param, o);
    PageIsWindow(rows, p', o + 1);
    SliceNonEmpty(Listing(rows, param), PageStart(o + 1, param.limit), param.limit);
  }

  /** The count depends only on the filters, not on the page asked for. */
  lemma CountIgnoresPage(rows: seq<DepositTxEntity>, param: GetDepositTxListParam,
                         offset: Option<nat>, limit: nat)
    ensures GetDepositTxList(rows, param.(offset := offset, limit := limit)).count
            == GetDepositTxList(rows, param).count
  {
    FilterIgnoresPage(rows, param, param.(offset := offset, limit := limit));
  }

  /** The rows of page `j`, the other parameters kept. */
  function Page(rows: seq<DepositTxEntity>, param: GetDepositTxListParam, j: nat): seq<DepositTxEntity>
  {
    GetDepositTxList(rows, param.(offset := Some(j))).depositTxList
  }

  /** Pages 0 .. k - 1, concatenated. */
  function PagesUpTo(rows: seq<DepositTxEntity>, param: GetDepositTxListParam, k: nat): seq<DepositTxEntity>
  {
    if k == 0 then [] else PagesUpTo(rows, param, k - 1) + Page(rows, param, k - 1)
  }

  /** Page `j` is the slice of the listing between the starts of pages `j`
      and `j + 1`. */
  lemma PageSlice(rows: seq<DepositTxEntity>, param: GetDepositTxListParam, j: nat, a: nat, b: nat)
    requires a == Min(PageStart(j, param.limit), |Listing(rows, param)|)
    requires b == Min(PageStart(j + 1, param.limit), |Listing(rows, param)|)
    ensures a <= b
    ensures Page(rows, param, j) == Listing(rows, param)[a..b]
  {
    var p' := param.(offset := Some(j));
    FilterIgnoresPage(rows, param, p');
    PageIsWindow(rows, p', j);
  }

  /** Walking the pages from offset 0 lists every filtered row once, in order. */
  lemma {:induction false} PagesTile(rows: seq<DepositTxEntity>, param: GetDepositTxListParam, k: nat)
    ensures PagesUpTo(rows, param, k)
            == Listing(rows, param)[..Min(PageStart(k, param.limit), |Listing(rows, param)|)]
  {
    if k > 0 {
      var s := Listing(rows, param);
      var l := param.limit;
      var j := k - 1;
      var a := Min(PageStart(j, l), |s|);
      var b := Min(PageStart(k, l), |s|);
      PagesTile(rows, param, j);
      PageSlice(rows, param, j, a, b);
      SlicesJoin(s, PagesUpTo(rows, param, j), Page(rows, param, j), a, b);
      assert PagesUpTo(rows, param, k) == PagesUpTo(rows, param, j) + Page(rows, param, j);
      assert PagesUpTo(rows, param, k) == s[..b];
    }
  }

  lemma SlicesJoin<T>(s: seq<T>, prefix: seq<T>, next: seq<T>, a: nat, b: nat)
    requires a <= b <= |s| && prefix == s[..a] && next == s[a..b]
    ensures prefix + next == s[..b]
  {
  }

  lemma SliceNonEmpty<T>(s: seq<T>, k: nat, l: nat)
    requires l > 0
    ensures s[Min(k, |s|)..Min(k + l, |s|)] != [] <==> k < |s|
  {
    if k < |s| {
      assert s[k] == s[Min(k, |s|)..Min(k + l, |s|)][0];
    }
  }
}
