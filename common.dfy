/**
 * Shared vocabulary of the platform's route handlers: optional request
 * fields and their JavaScript truthiness, the string tests the handlers use
 * (`startsWith`, `includes`, ASCII case mapping, `trim`), and the
 * page/limit arithmetic every listing endpoint repeats.
 */
module Common {

  datatype Option<T> = None | Some(value: T)
  {
    function GetOr(default: T): T
    {
      if Some? then value else default
    }
  }

  // ---------------------------------------------------------------------
  // JavaScript truthiness of request fields. `None` is `undefined`.
  // ---------------------------------------------------------------------

  /** `if (field)` on a string field: present and not the empty string. */
  predicate Filled(s: Option<string>)
  {
    s.Some? && s.value != ""
  }

  /** `if (field)` on a numeric field: present and not zero. */
  predicate NonZero(n: Option<int>)
  {
    n.Some? && n.value != 0
  }

  /**
   * A field of a JSON request body: left out (`undefined`), sent as `null`,
   * or given a value. Updates that test `!== undefined` store `null` too.
   */
  datatype Field<T> = Absent | Null | Given(value: T)
  {
    /** The stored value after `if (x !== undefined) data.x = x`, starting from `current`. */
    function Over(current: Option<T>): (r: Option<T>)
      ensures Absent? ==> r == current
      ensures Null? ==> r.None?
      ensures Given? ==> r == Some(value)
    {
      match this
      case Absent => current
      case Null => None
      case Given(v) => Some(v)
    }
  }

  /** `x ? x : null`: a falsy number, 0 included, is stored as null. */
  function Stored(x: Option<int>): (r: Option<int>)
    ensures r.Some? <==> NonZero(x)
    ensures r.Some? ==> r == x
  {
    if NonZero(x) then x else None
  }

  /** The value a number field is checked as: `null` and absence are both falsy. */
  function Checked(x: Field<int>): Option<int>
  {
    if x.Given? then Some(x.value) else None
  }

  /**
   * How a number column goes from `before` to `after` under field `x`: kept
   * when `x` is left out, cleared when it is `null` or 0, and set otherwise.
   */
  predicate NumberWrite(x: Field<int>, before: Option<int>, after: Option<int>)
  {
    && (x.Absent? ==> after == before)
    && (x.Null? || x == Given(0) ==> after.None?)
    && (x.Given? && x.value != 0 ==> after == Some(x.value))
  }

  /** `x !== undefined` writes `x ? x : null`; otherwise the column is kept. */
  function Written(x: Field<int>, current: Option<int>): (r: Option<int>)
    ensures x.Absent? ==> r == current
    ensures !x.Absent? ==> r == Stored(Checked(x))
    ensures NumberWrite(x, current, r)
  {
    if x.Absent? then current else Stored(Checked(x))
  }

  /** No element occurs twice in `xs`. */
  predicate Distinct<T(==)>(xs: seq<T>)
  {
    forall i, j | 0 <= i < j < |xs| :: xs[i] != xs[j]
  }

  /** `if (x)` on a text field of the body. */
  predicate TextTruthy(f: Field<string>)
  {
    f.Given? && f.value != ""
  }

  /** `if (x)` on a numeric field of the body. */
  predicate IntTruthy(f: Field<int>)
  {
    f.Given? && f.value != 0
  }

  // ---------------------------------------------------------------------
  // Strings
  // ---------------------------------------------------------------------

  predicate StartsWith(s: string, prefix: string)
  {
    |prefix| <= |s| && s[..|prefix|] == prefix
  }

  predicate OccursAt(s: string, part: string, i: int)
  {
    0 <= i && i + |part| <= |s| && s[i..i + |part|] == part
  }

  /** `s.includes(part)` */
  predicate Includes(s: string, part: string)
  {
    exists i | 0 <= i <= |s| - |part| :: OccursAt(s, part, i)
  }

  predicate IsDigit(c: char)
  {
    '0' <= c <= '9'
  }

  predicate AllDigits(s: string)
  {
    forall i :: 0 <= i < |s| ==> IsDigit(s[i])
  }

  /** The characters JavaScript's `\s` and `String.prototype.trim` treat as white space. */
  predicate IsJsSpace(c: char)
  {
    c == ' ' || c == '\t' || c == '\n' || c == '\U{000B}' || c == '\U{000C}' || c == '\r'
    || c == '\U{00A0}' || c == '\U{1680}' || ('\U{2000}' <= c <= '\U{200A}')
    || c == '\U{2028}' || c == '\U{2029}' || c == '\U{202F}' || c == '\U{205F}'
    || c == '\U{3000}' || c == '\U{FEFF}'
  }

  predicate HasNoSpace(s: string)
  {
    forall i :: 0 <= i < |s| ==> !IsJsSpace(s[i])
  }

  function LowerChar(c: char): char
  {
    if 'A' <= c <= 'Z' then (c as int + 32) as char else c
  }

  function UpperChar(c: char): char
  {
    if 'a' <= c <= 'z' then (c as int - 32) as char else c
  }

  /** `toLowerCase()` restricted to ASCII letters. */
  function ToLower(s: string): (r: string)
    ensures |r| == |s|
    ensures forall i :: 0 <= i < |s| ==> r[i] == LowerChar(s[i])
  {
    seq(|s|, i requires 0 <= i < |s| => LowerChar(s[i]))
  }

  /** `toUpperCase()` restricted to ASCII letters. */
  function ToUpper(s: string): (r: string)
    ensures |r| == |s|
    ensures forall i :: 0 <= i < |s| ==> r[i] == UpperChar(s[i])
  {
    seq(|s|, i requires 0 <= i < |s| => UpperChar(s[i]))
  }

  function TrimStart(s: string): (r: string)
    ensures |r| <= |s| && r == s[|s| - |r|..]
    ensures r == [] || !IsJsSpace(r[0])
    ensures forall i :: 0 <= i < |s| - |r| ==> IsJsSpace(s[i])
  {
    if s != [] && IsJsSpace(s[0]) then TrimStart(s[1..]) else s
  }

  function TrimEnd(s: string): (r: string)
    ensures |r| <= |s| && r == s[..|r|]
    ensures r == [] || !IsJsSpace(r[|r| - 1])
    ensures forall i :: |r| <= i < |s| ==> IsJsSpace(s[i])
  {
    if s != [] && IsJsSpace(s[|s| - 1]) then TrimEnd(s[..|s| - 1]) else s
  }

  /** `trim()`: white space removed at both ends. */
  function Trim(s: string): string
  {
    TrimEnd(TrimStart(s))
  }

  /** A string without white space is its own trim. */
  lemma TrimWithoutSpace(s: string)
    requires HasNoSpace(s)
    ensures Trim(s) == s
  {
    assert TrimStart(s) == s;
  }

  // ---------------------------------------------------------------------
  // Pagination: `skip = (page - 1) * limit`, `take = limit`,
  // `pages = Math.ceil(total / limit)`.
  // ---------------------------------------------------------------------

  /** The page a listing answers: `skip` rows are passed over and at most `take` returned. */
  datatype Window = Window(page: int, limit: int, skip: int, take: int)

  /**
   * `const { page = <1>, limit = <defaultLimit> } = req.query`, then
   * `skip = (page - 1) * limit` and `take = limit`; the query values are
   * taken as already parsed.
   */
  function ListingWindow(page: Option<int>, limit: Option<int>, defaultLimit: int): (w: Window)
    ensures w.page == (if page.Some? then page.value else 1)
    ensures w.limit == w.take == (if limit.Some? then limit.value else defaultLimit)
    ensures w.skip == Skip(w.page, w.limit)
    ensures page.None? && limit.None? && defaultLimit > 0 ==> w.skip == 0 && w.take == defaultLimit
  {
    var p := page.GetOr(1);
    var l := limit.GetOr(defaultLimit);
    Window(p, l, Skip(p, l), l)
  }

  function Min(a: int, b: int): int
  {
    if a <= b then a else b
  }

  /** The number of rows of a result of `n` rows that are left once `skip` are passed over. */
  function Remaining(n: int, skip: int): nat
  {
    if skip < n then n - skip else 0
  }

  /**
   * The rows `findMany({skip, take})` returns from the full ordered result.
   * A non-negative `take` reads forwards: `skip` rows are passed over and at
   * most `take` follow. A negative `take` reads from the end: the last `skip`
   * rows are passed over and at most `-take` rows before them are returned,
   * still in the result's order.
   */
  function PageOf<T>(rows: seq<T>, w: Window): (r: seq<T>)
    requires 0 <= w.skip
    ensures |r| == Min(if w.take >= 0 then w.take else -w.take, Remaining(|rows|, w.skip))
    ensures w.take >= 0 ==> forall k | 0 <= k < |r| :: r[k] == rows[w.skip + k]
    ensures w.take < 0 ==> forall k | 0 <= k < |r| :: r[k] == rows[|rows| - w.skip - |r| + k]
  {
    var left := Remaining(|rows|, w.skip);
    if w.take >= 0 then
      (if left == 0 then [] else rows[w.skip..w.skip + Min(w.take, left)])
    else
      rows[left - Min(-w.take, left)..left]
  }

  /** The rows of `s` in the opposite order. */
  function Reverse<T>(s: seq<T>): (r: seq<T>)
    ensures |r| == |s| && forall k | 0 <= k < |s| :: r[k] == s[|s| - 1 - k]
  {
    seq(|s|, k requires 0 <= k < |s| => s[|s| - 1 - k])
  }

  /**
   * A negative `take` is the forward page of the reversed result with
   * `-take` rows, reversed back.
   */
  lemma NegativeTakeFromEnd<T>(rows: seq<T>, w: Window)
    requires 0 <= w.skip && w.take < 0
    ensures PageOf(rows, w) == Reverse(PageOf(Reverse(rows), w.(take := -w.take)))
  {
    var r := PageOf(rows, w);
    var rev := Reverse(rows);
    var back := PageOf(rev, w.(take := -w.take));
    var n := |r|;
    assert |back| == n;
    forall k | 0 <= k < n
      ensures r[k] == Reverse(back)[k]
    {
      var j := n - 1 - k;
      assert Reverse(back)[k] == back[j];
      assert back[j] == rev[w.skip + j];
      assert rev[w.skip + j] == rows[|rows| - 1 - w.skip - j];
      assert r[k] == rows[|rows| - w.skip - n + k];
    }
  }

  /** `take: n` with no `skip`: the first `n` rows, or the last `-n` rows when `n` is negative. */
  function TakeOf<T>(rows: seq<T>, n: int): (r: seq<T>)
    ensures n >= 0 ==> r <= rows && |r| == Min(n, |rows|)
    ensures n < 0 ==> |r| == Min(-n, |rows|) && r == rows[|rows| - |r|..]
  {
    var r := PageOf(rows, Window(1, n, 0, n));
    if n >= 0 then
      assert r == rows[..|r|];
      r
    else
      assert r == rows[|rows| - |r|..];
      r
  }

  /** Number of rows skipped before page `page`. */
  function Skip(page: int, limit: int): int
  {
    (page - 1) * limit
  }

  /**
   * `Math.ceil(total / limit)`. A zero limit gives a non-finite number in
   * JavaScript (`Infinity` or `NaN`), represented by `None`.
   */
  function PageCount(total: nat, limit: int): (r: Option<int>)
    ensures r.None? <==> limit == 0
  {
    if limit == 0 then None
    else if limit > 0 then Some(-((-(total as int)) / limit))
    else Some(-(total / -limit))
  }

  lemma MulMonotone(a: int, b: int, c: int)
    requires a <= b && c >= 0
    ensures a * c <= b * c
  {
  }

  /**
   * With a positive limit, the page count is the least number of pages
   * of `limit` rows that holds `total` rows.
   */
  lemma PageCountIsLeast(total: nat, limit: int)
    requires limit > 0
    ensures var p := PageCount(total, limit).value;
      p >= 0 && (p - 1) * limit < total <= p * limit
  {
    var p := PageCount(total, limit).value;
    var q := (-(total as int)) / limit;
    var m := (-(total as int)) % limit;
    assert -(total as int) == q * limit + m && 0 <= m < limit;
    assert p == -q;
    assert p * limit == total + m;
    assert (p - 1) * limit == total + m - limit;
  }

  /**
   * Every row `i` of a result of `total` rows is on exactly one page:
   * page `i / limit + 1`, which lies between 1 and the page count.
   */
  lemma {:induction false} RowOnPage(total: nat, limit: int, i: int)
    requires limit > 0 && 0 <= i < total
    ensures var p := i / limit + 1;
      1 <= p <= PageCount(total, limit).value
      && Skip(p, limit) <= i < Skip(p, limit) + limit
  {
    var p := i / limit + 1;
    var pages := PageCount(total, limit).value;
    PageCountIsLeast(total, limit);
    assert i == (i / limit) * limit + i % limit;
    assert Skip(p, limit) == (i / limit) * limit;
    if p > pages {
      MulMonotone(pages, p - 1, limit);
      assert false;
    }
  }

  /** A proper subset is strictly smaller; a subset is no larger. */
  lemma {:induction false} SubsetSize<T>(a: set<T>, b: set<T>)
    requires a <= b
    ensures |a| <= |b|
    ensures a < b ==> |a| < |b|
    decreases b
  {
    if b != {} {
      var x :| x in b;
      SubsetSize(a - {x}, b - {x});
      if x in a {
        assert a == (a - {x}) + {x};
      } else {
        assert a - {x} == a;
        assert b == (b - {x}) + {x};
      }
    }
  }
}
