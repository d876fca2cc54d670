/**
 * The admin review list's helpers (Reviews.jsx): the search filter over the
 * reviewer's and the menu item's names, the four sort orders, and `truncate`
 * for long comments. Letter case is ASCII case; dates are numeric timestamps.
 */
module AdminReviews {
  import opened Wrappers
  import opened Strings
  import opened Seqs

  /** A review as the list endpoint returns it, with the embedded user's and menu item's names (or null). */
  datatype ReviewRow = ReviewRow(userName: Option<string>, menuItemName: Option<string>, rating: int, createdAt: int, comment: Option<string>)

  /** `hay.toLowerCase().includes(q.toLowerCase())`. */
  predicate Mentions(hay: string, q: string) {
    Contains(ToLower(hay), ToLower(q))
  }

  /** `r.user?.name...includes(...) || r.menu_item?.name...includes(...)`: a missing relation does not match. */
  predicate Matches(r: ReviewRow, search: string) {
    (r.userName.Some? && Mentions(r.userName.value, search))
    || (r.menuItemName.Some? && Mentions(r.menuItemName.value, search))
  }

  /** The rows the search keeps, in their order. */
  function FilterRows(rows: seq<ReviewRow>, search: string): (r: seq<ReviewRow>)
    ensures forall x :: x in r <==> x in rows && Matches(x, search)
    ensures multiset(r) <= multiset(rows)
    ensures Subsequence(r, rows)
  {
    FilterContents(rows, (x: ReviewRow) => Matches(x, search));
    FilterSubsequence(rows, (x: ReviewRow) => Matches(x, search));
    Filter(rows, (x: ReviewRow) => Matches(x, search))
  }

  /** Lower-casing forgets whether a letter was upper-cased first. */
  lemma LowerOfUpper(s: string)
    ensures ToLower(ToUpper(s)) == ToLower(s)
  {
    assert forall i :: 0 <= i < |s| ==> LowerChar(UpperChar(s[i])) == LowerChar(s[i]);
  }

  /** The search ignores the case of the search term. */
  lemma SearchIgnoresCase(rows: seq<ReviewRow>, search: string)
    ensures FilterRows(rows, ToUpper(search)) == FilterRows(rows, search)
  {
    LowerOfUpper(search);
    assert forall x :: Matches(x, ToUpper(search)) == Matches(x, search);
    FilterAgree(rows, (x: ReviewRow) => Matches(x, ToUpper(search)), (x: ReviewRow) => Matches(x, search));
  }

  /** The empty search keeps every row with a user or a menu item. */
  lemma EmptySearchKeepsLinked(rows: seq<ReviewRow>)
    requires forall i :: 0 <= i < |rows| ==> rows[i].userName.Some? || rows[i].menuItemName.Some?
    ensures FilterRows(rows, "") == rows
  {
    forall i | 0 <= i < |rows| ensures Matches(rows[i], "") {
      var n := if rows[i].userName.Some? then rows[i].userName.value else rows[i].menuItemName.value;
      assert "" <= ToLower(n)[0..];
    }
    FilterAll(rows, (x: ReviewRow) => Matches(x, ""));
  }

  // ---------------------------------------------------------------------------
  // Sorting

  datatype SortMode = Newest | Oldest | Highest | Lowest | Unsorted

  /** The `sort` state: the four named orders, anything else compares every pair equal. */
  function ParseSortMode(sort: string): (m: SortMode)
    ensures m == Newest <==> sort == "newest"
    ensures m == Oldest <==> sort == "oldest"
    ensures m == Highest <==> sort == "highest"
    ensures m == Lowest <==> sort == "lowest"
    ensures m == Unsorted <==> sort !in {"newest", "oldest", "highest", "lowest"}
  {
    if sort == "newest" then Newest
    else if sort == "oldest" then Oldest
    else if sort == "highest" then Highest
    else if sort == "lowest" then Lowest
    else Unsorted
  }

  function CreatedAt(r: ReviewRow): int { r.createdAt }
  function Rating(r: ReviewRow): int { r.rating }

  /** `.sort(...)` with the comparator for the mode (a stable sort: the constant comparator keeps the order). */
  function SortRows(rows: seq<ReviewRow>, mode: SortMode): (r: seq<ReviewRow>)
    ensures multiset(r) == multiset(rows)
    ensures mode == Newest ==> SortedBy(r, CreatedAt, true)
    ensures mode == Oldest ==> SortedBy(r, CreatedAt, false)
    ensures mode == Highest ==> forall i, j :: 0 <= i < j < |r| ==> r[i].rating >= r[j].rating
    ensures mode == Lowest ==> forall i, j :: 0 <= i < j < |r| ==> r[i].rating <= r[j].rating
    ensures mode == Unsorted ==> r == rows
    ensures mode == Newest || mode == Oldest ==> forall k :: WithKey(r, CreatedAt, k) == WithKey(rows, CreatedAt, k)
    ensures mode == Highest || mode == Lowest ==> forall k :: WithKey(r, Rating, k) == WithKey(rows, Rating, k)
  {
    match mode
    case Newest =>
      SortByStableAll(rows, CreatedAt, true);
      SortBy(rows, CreatedAt, true)
    case Oldest =>
      SortByStableAll(rows, CreatedAt, false);
      SortBy(rows, CreatedAt, false)
    case Highest =>
      SortByStableAll(rows, Rating, true);
      var r := SortBy(rows, Rating, true);
      assert forall i, j :: 0 <= i < j < |r| ==> InOrder(Rating, true, r[i], r[j]);
      r
    case Lowest =>
      SortByStableAll(rows, Rating, false);
      var r := SortBy(rows, Rating, false);
      assert forall i, j :: 0 <= i < j < |r| ==> InOrder(Rating, false, r[i], r[j]);
      r
    case Unsorted => rows
  }

  /** `filteredReviews`: the search, then the chosen order. */
  function Visible(rows: seq<ReviewRow>, search: string, sort: string): (r: seq<ReviewRow>)
    ensures forall x :: x in r <==> x in rows && Matches(x, search)
    ensures multiset(r) <= multiset(rows)
    ensures multiset(r) == multiset(FilterRows(rows, search))
    ensures sort == "newest" ==> SortedBy(r, CreatedAt, true)
    ensures sort == "oldest" ==> SortedBy(r, CreatedAt, false)
    ensures sort == "highest" ==> forall i, j :: 0 <= i < j < |r| ==> r[i].rating >= r[j].rating
    ensures sort == "lowest" ==> forall i, j :: 0 <= i < j < |r| ==> r[i].rating <= r[j].rating
    ensures sort !in {"newest", "oldest", "highest", "lowest"} ==> r == FilterRows(rows, search)
    ensures sort == "newest" || sort == "oldest" ==>
      forall k :: WithKey(r, CreatedAt, k) == WithKey(FilterRows(rows, search), CreatedAt, k)
    ensures sort == "highest" || sort == "lowest" ==>
      forall k :: WithKey(r, Rating, k) == WithKey(FilterRows(rows, search), Rating, k)
  {
    var kept := FilterRows(rows, search);
    var r := SortRows(kept, ParseSortMode(sort));
    assert forall x :: x in r <==> x in kept by {
      forall x ensures x in r <==> x in kept {
        assert x in r <==> multiset(r)[x] > 0;
        assert x in kept <==> multiset(kept)[x] > 0;
      }
    }
    r
  }

  // ---------------------------------------------------------------------------
  // truncate

  /** The default `maxLength`. */
  const DefaultMaxLength: nat := 70

  /** JavaScript's `!text` on a string: null, undefined or "". */
  predicate JsFalsy(text: Option<string>) {
    text.None? || text.value == ""
  }

  /**
   * `truncate(text, maxLength)`: "" for a falsy text, the text itself when it
   * fits, else its first `maxLength` characters and "...".
   */
  function Truncate(text: Option<string>, maxLength: nat): (r: string)
    ensures JsFalsy(text) ==> r == ""
    ensures !JsFalsy(text) && |text.value| <= maxLength ==> r == text.value
    ensures !JsFalsy(text) && |text.value| > maxLength ==>
      |r| == maxLength + 3 && r[..maxLength] == text.value[..maxLength] && r[maxLength..] == "..."
    ensures |r| <= maxLength + 3
  {
    if JsFalsy(text) then ""
    else if |text.value| > maxLength then text.value[..maxLength] + "..."
    else text.value
  }

  /** `truncate(text)` with the default length. */
  function TruncateDefault(text: Option<string>): (r: string)
    ensures JsFalsy(text) ==> r == ""
    ensures !JsFalsy(text) && |text.value| <= 70 ==> r == text.value
    ensures !JsFalsy(text) && |text.value| > 70 ==> |r| == 73 && r[..70] == text.value[..70] && r[70..] == "..."
  {
    Truncate(text, DefaultMaxLength)
  }

  /** What `truncate` shows of a text is always the start of it. */
  lemma TruncateShowsPrefix(text: Option<string>, maxLength: nat)
    requires !JsFalsy(text)
    ensures var r := Truncate(text, maxLength);
      var k := if |text.value| <= maxLength then |text.value| else maxLength;
      r[..k] == text.value[..k]
  {
  }
}
