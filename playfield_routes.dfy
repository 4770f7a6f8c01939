/**
 * The column-name rewrite that the playfield game-session and log listings
 * apply to their `orderBy` rules before querying: camelCase column names
 * become snake_case. The rewrite is `replace(/([a-z])([A-Z])/g, '$1_$2')`
 * followed by `toLowerCase()`.
 */
module PlayfieldRoutes {
  import opened Wrappers
  import opened JsStrings

  /** A lower-case ASCII letter directly followed by an upper-case one: where the pattern matches. */
  predicate BoundaryAt(s: string, k: int) {
    0 <= k && k + 1 < |s| && IsLowerAscii(s[k]) && IsUpperAscii(s[k + 1])
  }

  /**
   * The global replace: the string is scanned left to right, every match
   * gets `_` between its two letters, and scanning goes on after the match,
   * so matches never overlap.
   */
  function InsertUnderscores(s: string): (r: string)
    ensures |r| >= |s|
    decreases |s|
  {
    if |s| == 0 then []
    else if BoundaryAt(s, 0) then [s[0], '_', s[1]] + InsertUnderscores(s[2..])
    else [s[0]] + InsertUnderscores(s[1..])
  }

  /** `s` with every `_` dropped. */
  function WithoutUnderscores(s: string): (r: string)
    ensures '_' !in r
    ensures |r| <= |s|
    decreases |s|
  {
    if |s| == 0 then [] else (if s[0] == '_' then [] else [s[0]]) + WithoutUnderscores(s[1..])
  }

  lemma {:induction false} WithoutUnderscoresConcat(a: string, b: string)
    ensures WithoutUnderscores(a + b) == WithoutUnderscores(a) + WithoutUnderscores(b)
    decreases |a|
  {
    if |a| > 0 {
      var h := if a[0] == '_' then [] else [a[0]];
      assert (a + b)[0] == a[0] && (a + b)[1..] == a[1..] + b;
      WithoutUnderscoresConcat(a[1..], b);
      assert WithoutUnderscores(a + b) == h + WithoutUnderscores(a[1..] + b);
      assert WithoutUnderscores(a) == h + WithoutUnderscores(a[1..]);
    } else {
      assert a + b == b;
    }
  }

  /** The replace only inserts underscores: dropping all underscores gives the same as for the input. */
  lemma {:induction false} InsertUnderscoresOnlyInserts(s: string)
    ensures WithoutUnderscores(InsertUnderscores(s)) == WithoutUnderscores(s)
    decreases |s|
  {
    if |s| > 0 {
      if BoundaryAt(s, 0) {
        InsertUnderscoresOnlyInserts(s[2..]);
        WithoutUnderscoresConcat([s[0], '_', s[1]], InsertUnderscores(s[2..]));
        assert s == [s[0], s[1]] + s[2..];
        WithoutUnderscoresConcat([s[0], s[1]], s[2..]);
        assert WithoutUnderscores([s[0], '_', s[1]]) == [s[0], s[1]];
        assert WithoutUnderscores([s[0], s[1]]) == [s[0], s[1]];
      } else {
        InsertUnderscoresOnlyInserts(s[1..]);
        WithoutUnderscoresConcat([s[0]], InsertUnderscores(s[1..]));
        assert s == [s[0]] + s[1..];
        WithoutUnderscoresConcat([s[0]], s[1..]);
      }
    }
  }

  /** A string with no lower-then-upper pair is left as it is. */
  lemma {:induction false} NoBoundaryNoChange(s: string)
    requires forall k :: !BoundaryAt(s, k)
    ensures InsertUnderscores(s) == s
    decreases |s|
  {
    if |s| > 0 {
      assert !BoundaryAt(s, 0);
      forall k ensures !BoundaryAt(s[1..], k) {
        assert BoundaryAt(s[1..], k) ==> BoundaryAt(s, k + 1);
      }
      NoBoundaryNoChange(s[1..]);
      assert s == [s[0]] + s[1..];
    }
  }

  /**
   * Matches do not overlap: after a lower-case letter, a run of capitals gets
   * one underscore, before its first letter only.
   */
  lemma CapitalRunGetsOneUnderscore(lower: char, capitals: string)
    requires IsLowerAscii(lower)
    requires |capitals| >= 1 && forall k :: 0 <= k < |capitals| ==> IsUpperAscii(capitals[k])
    ensures InsertUnderscores([lower] + capitals) == [lower, '_'] + capitals
  {
    var s := [lower] + capitals;
    assert BoundaryAt(s, 0);
    assert s[2..] == capitals[1..];
    forall k ensures !BoundaryAt(capitals[1..], k) {
    }
    NoBoundaryNoChange(capitals[1..]);
    assert capitals == [capitals[0]] + capitals[1..];
  }

  /**
   * Cutting a name anywhere but inside a lower-then-capital pair, the two
   * sides are rewritten independently: the scan of the first part ends
   * exactly where the second part begins.
   */
  lemma {:induction false} InsertUnderscoresConcat(a: string, t: string)
    requires |a| == 0 || |t| == 0 || !IsLowerAscii(a[|a| - 1]) || !IsUpperAscii(t[0])
    ensures InsertUnderscores(a + t) == InsertUnderscores(a) + InsertUnderscores(t)
    decreases |a|, 1
  {
    if |a| == 0 {
      assert a + t == t;
    } else if |a| == 1 {
      var s := a + t;
      assert s[0] == a[0] && s[1..] == t;
      assert !BoundaryAt(s, 0);
      assert InsertUnderscores(a) == [a[0]];
    } else {
      ConcatAfterFirstStep(a, t);
    }
  }

  /** The inductive step of the lemma above: one scan step on `a`, then the rest of `a` followed by `t`. */
  lemma {:induction false} ConcatAfterFirstStep(a: string, t: string)
    requires |a| >= 2
    requires |t| == 0 || !IsLowerAscii(a[|a| - 1]) || !IsUpperAscii(t[0])
    ensures InsertUnderscores(a + t) == InsertUnderscores(a) + InsertUnderscores(t)
    decreases |a|, 0
  {
    var s := a + t;
    var n := if BoundaryAt(a, 0) then 2 else 1;
    var head := if n == 2 then [a[0], '_', a[1]] else [a[0]];
    var rest := a[n..];
    assert |rest| > 0 ==> rest[|rest| - 1] == a[|a| - 1];
    assert s[0] == a[0] && s[1] == a[1] && s[n..] == rest + t;
    assert BoundaryAt(s, 0) == BoundaryAt(a, 0);
    assert InsertUnderscores(a) == head + InsertUnderscores(rest);
    assert InsertUnderscores(s) == head + InsertUnderscores(rest + t);
    InsertUnderscoresConcat(rest, t);
  }

  /**
   * The replace is global: a lower-case letter followed by a capital gets
   * `_` between them wherever it stands, and the text on either side is
   * rewritten independently. With `NoBoundaryNoChange` this fixes the result
   * for every name.
   */
  lemma BoundaryGetsUnderscore(a: string, x: char, y: char, b: string)
    requires IsLowerAscii(x) && IsUpperAscii(y)
    ensures InsertUnderscores(a + [x, y] + b) == InsertUnderscores(a) + [x, '_', y] + InsertUnderscores(b)
  {
    var t := [x, y] + b;
    assert a + [x, y] + b == a + t;
    InsertUnderscoresConcat(a, t);
    assert BoundaryAt(t, 0) && t[2..] == b;
  }

  /** A digit between the letters prevents the insertion. */
  lemma DigitsNeverTrigger(lower: char, digit: char, upper: char)
    requires IsLowerAscii(lower) && '0' <= digit <= '9' && IsUpperAscii(upper)
    ensures InsertUnderscores([lower, digit, upper]) == [lower, digit, upper]
  {
    NoBoundaryNoChange([lower, digit, upper]);
  }

  /**
   * The camelCase-to-snake_case rewrite of one column name: the result has
   * no capitals, and only underscores were added.
   */
  function ToSnakeCase(columnName: string): (r: string)
    ensures HasNoUpperAscii(r)
    ensures |r| >= |columnName|
  {
    ToLowerAscii(InsertUnderscores(columnName))
  }

  /**
   * The whole rewrite at one boundary: the pair becomes the lower-case
   * letter, `_` and the lowered capital, and both sides are rewritten on
   * their own.
   */
  lemma SnakeCaseAtBoundary(a: string, x: char, y: char, b: string)
    requires IsLowerAscii(x) && IsUpperAscii(y)
    ensures ToSnakeCase(a + [x, y] + b) == ToSnakeCase(a) + [x, '_', LowerChar(y)] + ToSnakeCase(b)
  {
    BoundaryGetsUnderscore(a, x, y, b);
    ToLowerAsciiConcat(InsertUnderscores(a) + [x, '_', y], InsertUnderscores(b));
    ToLowerAsciiConcat(InsertUnderscores(a), [x, '_', y]);
    assert ToLowerAscii([x, '_', y]) == [x, '_', LowerChar(y)];
  }

  /** Rewriting an already rewritten name changes nothing. */
  lemma ToSnakeCaseIdempotent(columnName: string)
    ensures ToSnakeCase(ToSnakeCase(columnName)) == ToSnakeCase(columnName)
  {
    var once := ToSnakeCase(columnName);
    forall k ensures !BoundaryAt(once, k) {
    }
    NoBoundaryNoChange(once);
    ToLowerAsciiIdentity(once);
  }

  /** A name with no capitals is already snake_case. */
  lemma ToSnakeCaseOfLowerCase(columnName: string)
    requires HasNoUpperAscii(columnName)
    ensures ToSnakeCase(columnName) == columnName
  {
    forall k ensures !BoundaryAt(columnName, k) {
    }
    NoBoundaryNoChange(columnName);
    ToLowerAsciiIdentity(columnName);
  }

  /** One word followed by a capitalised word: `startTime` becomes `start_time`. */
  lemma TwoWords(first: string, capital: char, rest: string)
    requires |first| >= 1 && forall k :: 0 <= k < |first| ==> IsLowerAscii(first[k])
    requires IsUpperAscii(capital)
    requires forall k :: 0 <= k < |rest| ==> IsLowerAscii(rest[k])
    ensures ToSnakeCase(first + [capital] + rest) == first + ['_', LowerChar(capital)] + rest
  {
    var n := |first| - 1;
    var before := first[..n];
    assert first + [capital] + rest == before + [first[n], capital] + rest;
    SnakeCaseAtBoundary(before, first[n], capital, rest);
    ToSnakeCaseOfLowerCase(before);
    ToSnakeCaseOfLowerCase(rest);
    assert first == before + [first[n]];
  }

  /** One rule of an `orderBy` filter. */
  class OrderRule {
    var columnName: string
    var order: string

    constructor(columnName: string, order: string)
      ensures this.columnName == columnName && this.order == order
    {
      this.columnName := columnName;
      this.order := order;
    }
  }

  /** The database query filters parsed from the listing's query string; only `orderBy` is rewritten. */
  class QueryFilters {
    var orderBy: Option<seq<OrderRule>>

    constructor(orderBy: Option<seq<OrderRule>>)
      ensures this.orderBy == orderBy
    {
      this.orderBy := orderBy;
    }
  }

  /**
   * `filters.orderBy = filters.orderBy?.map(rule => { rule.columnName = ...; return rule; })`:
   * each rule object is changed in place and the list is rebuilt from the
   * same objects in the same order. A rule object listed twice is rewritten
   * twice, which leaves it as after one rewrite. Missing `orderBy` stays missing.
   */
  method RewriteOrderBy(filters: QueryFilters)
    modifies filters, if filters.orderBy.Some? then filters.orderBy.value else []
    ensures filters.orderBy == old(filters.orderBy)
    ensures filters.orderBy.Some? ==> forall k :: 0 <= k < |filters.orderBy.value| ==>
      filters.orderBy.value[k].columnName == ToSnakeCase(old(filters.orderBy.value[k].columnName))
      && filters.orderBy.value[k].order == old(filters.orderBy.value[k].order)
  {
    if filters.orderBy.None? {
      return;
    }
    var mapped := RewriteRules(filters.orderBy.value);
    filters.orderBy := Some(mapped);
  }

  /**
   * The `map` callback over the whole list: every rule object gets its column
   * name rewritten, and the list returned holds the same objects in the same
   * order.
   */
  method RewriteRules(rules: seq<OrderRule>) returns (mapped: seq<OrderRule>)
    modifies rules
    ensures mapped == rules
    ensures forall k :: 0 <= k < |rules| ==>
      rules[k].columnName == ToSnakeCase(old(rules[k].columnName)) && rules[k].order == old(rules[k].order)
  {
    ghost var original := seq(|rules|, k requires 0 <= k < |rules| reads rules => rules[k].columnName);
    ghost var snake := seq(|rules|, k requires 0 <= k < |rules| => ToSnakeCase(original[k]));
    mapped := [];
    var i := 0;
    while i < |rules|
      invariant 0 <= i <= |rules|
      invariant mapped == rules[..i]
      invariant forall k :: 0 <= k < |rules| ==> original[k] == old(rules[k].columnName)
      invariant forall k :: 0 <= k < |rules| ==> rules[k].order == old(rules[k].order)
      invariant forall k :: 0 <= k < |rules| ==>
        rules[k].columnName == original[k] || rules[k].columnName == snake[k]
      invariant forall k :: 0 <= k < i ==> rules[k].columnName == snake[k]
    {
      var rule := rules[i];
      ToSnakeCaseIdempotent(original[i]);
      rule.columnName := ToSnakeCase(rule.columnName);
      mapped := mapped + [rule];
      i := i + 1;
    }
    assert rules[..i] == rules;
  }
}
