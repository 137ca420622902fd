/**
  The SQL text the movie page builds itself and the parameters it binds:
  the `IN (?,?,...,?)` list for the bulk delete and bulk randomize
  statements, and the search clause with its three `%term%` parameters.
  What MySQL does with these statements is not part of this model; what is
  modelled is the text and the parameter lists, and the property that
  matters for a prepared statement: one bound value per `?`.
 */
module QueryFragments {
  import opened Wrappers

  /** Statement text together with the values bound to its `?` marks. */
  datatype Statement<P> = Statement(sql: string, params: seq<P>)

  /** Number of occurrences of `c` in `s`. */
  function CountChar(s: string, c: char): nat
  {
    if s == [] then 0 else (if s[0] == c then 1 else 0) + CountChar(s[1..], c)
  }

  lemma {:induction false} CountCharAppend(a: string, b: string, c: char)
    ensures CountChar(a + b, c) == CountChar(a, c) + CountChar(b, c)
  {
    if a == [] {
      assert a + b == b;
    } else {
      assert (a + b)[1..] == a[1..] + b;
      CountCharAppend(a[1..], b, c);
    }
  }

  lemma {:induction false} CountCharAbsent(s: string, c: char)
    requires c !in s
    ensures CountChar(s, c) == 0
  {
    if s != [] {
      CountCharAbsent(s[1..], c);
    }
  }

  /** Text around `m` that does not contain `c` adds no occurrence of it. */
  lemma CountCharFramed(before: string, m: string, after: string, c: char)
    requires c !in before && c !in after
    ensures CountChar(before + m + after, c) == CountChar(m, c)
  {
    CountCharAbsent(before, c);
    CountCharAbsent(after, c);
    CountCharAppend(before, m, c);
    CountCharAppend(before + m, after, c);
  }

  // ---------------------------------------------------------------------
  // The placeholder list

  /** `str_repeat(s, k)`: `s` written `k` times. */
  function Repeat(s: string, k: nat): (r: string)
    ensures |r| == |s| * k
  {
    if k == 0 then "" else s + Repeat(s, k - 1)
  }

  lemma {:induction false} RepeatQuestionComma(k: nat)
    ensures |Repeat("?,", k)| == 2 * k
    ensures forall i :: 0 <= i < 2 * k ==> Repeat("?,", k)[i] == if i % 2 == 0 then '?' else ','
    ensures CountChar(Repeat("?,", k), '?') == k && CountChar(Repeat("?,", k), ',') == k
  {
    if k > 0 {
      RepeatQuestionComma(k - 1);
      CountCharAppend("?,", Repeat("?,", k - 1), '?');
      CountCharAppend("?,", Repeat("?,", k - 1), ',');
    }
  }

  /** `str_repeat('?,', count($movieIds) - 1) . '?'`: `n` question marks
      separated by commas. The page builds it only for a non-empty list. */
  function Placeholders(n: nat): (r: string)
    requires n >= 1
    ensures |r| == 2 * n - 1
    ensures forall i :: 0 <= i < |r| ==> r[i] == if i % 2 == 0 then '?' else ','
  {
    RepeatQuestionComma(n - 1);
    Repeat("?,", n - 1) + "?"
  }

  /** The placeholder list has one `?` per identifier and a comma between
      each two of them. */
  lemma PlaceholderCount(n: nat)
    requires n >= 1
    ensures CountChar(Placeholders(n), '?') == n
    ensures CountChar(Placeholders(n), ',') == n - 1
  {
    RepeatQuestionComma(n - 1);
    CountCharAppend(Repeat("?,", n - 1), "?", '?');
    CountCharAppend(Repeat("?,", n - 1), "?", ',');
  }

  /** `WHERE vod_id IN (?,...,?)` for a non-empty identifier list. */
  function IdFilter(ids: seq<int>): (r: string)
    requires ids != []
    ensures CountChar(r, '?') == |ids|
  {
    PlaceholderCount(|ids|);
    CountCharFramed("WHERE vod_id IN (", Placeholders(|ids|), ")", '?');
    "WHERE vod_id IN (" + Placeholders(|ids|) + ")"
  }

  /** The bulk delete: the selected identifiers, bound in order, one per `?`. */
  function DeleteSelected(ids: seq<int>): (st: Statement<int>)
    requires ids != []
    ensures st.params == ids
    ensures CountChar(st.sql, '?') == |st.params|
  {
    CountCharFramed("DELETE FROM mac_vod ", IdFilter(ids), "", '?');
    assert "DELETE FROM mac_vod " + IdFilter(ids) + "" == "DELETE FROM mac_vod " + IdFilter(ids);
    Statement("DELETE FROM mac_vod " + IdFilter(ids), ids)
  }

  /** The WHERE clause and parameters of the randomize statement: empty for
      "every movie" (`None`), the identifier filter for a selection. The SET
      list of random values is left out. */
  function RandomizeFilter(ids: Option<seq<int>>): (st: Statement<int>)
    requires ids.Some? ==> ids.value != []
    ensures st.sql == "" <==> ids.None?
    ensures ids.Some? ==> st.params == ids.value
    ensures CountChar(st.sql, '?') == |st.params|
  {
    match ids
    case None => Statement("", [])
    case Some(list) => Statement(IdFilter(list), list)
  }

  // ---------------------------------------------------------------------
  // Trimming the search term

  /** The characters PHP's `trim` strips by default: space, tab, newline,
      carriage return, NUL and vertical tab. */
  predicate IsBlank(c: char)
  {
    c == ' ' || c == '\t' || c == '\n' || c == '\r' || c == '\0' || c == '\U{000B}'
  }

  /** Drops the leading blanks: the result is the longest suffix of `s`
      that does not start with a blank. */
  function TrimStart(s: string): (r: string)
    ensures |r| <= |s| && r == s[|s| - |r|..]
    ensures forall i :: 0 <= i < |s| - |r| ==> IsBlank(s[i])
    ensures r == [] || !IsBlank(r[0])
  {
    if s != [] && IsBlank(s[0]) then TrimStart(s[1..]) else s
  }

  /** Drops the trailing blanks: the result is the longest prefix of `s`
      that does not end with a blank. */
  function TrimEnd(s: string): (r: string)
    ensures |r| <= |s| && r == s[..|r|]
    ensures forall i :: |r| <= i < |s| ==> IsBlank(s[i])
    ensures r == [] || !IsBlank(r[|r| - 1])
  {
    if s != [] && IsBlank(s[|s| - 1]) then TrimEnd(s[..|s| - 1]) else s
  }

  lemma TrimBothEnds(s: string)
    ensures var t := TrimEnd(TrimStart(s));
      (t == [] <==> forall i :: 0 <= i < |s| ==> IsBlank(s[i])) &&
      (t != [] ==> !IsBlank(t[0]) && !IsBlank(t[|t| - 1]))
  {
    var u := TrimStart(s);
    var t := TrimEnd(u);
    if t != [] {
      assert t[0] == u[0];
      assert u[0] == s[|s| - |u|];
    }
  }

  /** `trim($s)`: the text between the leading and the trailing blanks, a
      prefix of what `TrimStart` leaves whose remainder is all blanks, and so
      a contiguous piece of `s` without exactly those blanks. It is
      empty exactly when `s` is all blanks, and otherwise starts and ends with
      a non-blank character. */
  function Trim(s: string): (t: string)
    ensures |t| <= |s|
    ensures t == [] <==> forall i :: 0 <= i < |s| ==> IsBlank(s[i])
    ensures t != [] ==> !IsBlank(t[0]) && !IsBlank(t[|t| - 1])
    ensures |t| <= |TrimStart(s)| && t == TrimStart(s)[..|t|]
    ensures forall i :: |t| <= i < |TrimStart(s)| ==> IsBlank(TrimStart(s)[i])
  {
    TrimBothEnds(s);
    var u := TrimStart(s);
    var r := TrimEnd(u);
    assert r == u[..|r|];
    r
  }

  lemma TrimIdempotent(s: string)
    ensures Trim(Trim(s)) == Trim(s)
  {
    var t := Trim(s);
    if t != [] {
      assert TrimStart(t) == t;
      assert TrimEnd(t) == t;
    }
  }

  // ---------------------------------------------------------------------
  // The search clause

  /** Three `LIKE ?` comparisons joined by text without marks. */
  lemma ThreeMarks(a: string, b: string, c: string)
    requires '?' !in a && '?' !in b && '?' !in c
    ensures CountChar(a + "?" + b + "?" + c + "?", '?') == 3
  {
    CountCharAbsent(a, '?');
    CountCharAbsent(b, '?');
    CountCharAbsent(c, '?');
    CountCharAppend(a, "?", '?');
    CountCharAppend(a + "?", b, '?');
    CountCharAppend(a + "?" + b, "?", '?');
    CountCharAppend(a + "?" + b + "?", c, '?');
    CountCharAppend(a + "?" + b + "?" + c, "?", '?');
  }

  /** The search condition over the three searched columns. */
  const SearchWhere: string :=
    "WHERE vod_name LIKE " + "?" + " OR vod_sub LIKE " + "?" + " OR vod_en LIKE " + "?"

  lemma SearchWhereMarks()
    ensures CountChar(SearchWhere, '?') == 3
  {
    ThreeMarks("WHERE vod_name LIKE ", " OR vod_sub LIKE ", " OR vod_en LIKE ");
  }

  /** PHP's `empty()` on a string: true for `""` and also for `"0"`. */
  predicate PhpEmpty(s: string)
  {
    s == "" || s == "0"
  }

  /** The search clause and parameters as the page builds them from the raw
      `search` query parameter: no clause when the trimmed term is empty in
      PHP's sense, else the three-column match with `%term%` bound three times. */
  function SearchFilter(raw: string): (st: Statement<string>)
    ensures st.params == [] <==> PhpEmpty(Trim(raw))
    ensures st.sql == "" <==> st.params == []
    ensures st.params != [] ==> st.params == ["%" + Trim(raw) + "%", "%" + Trim(raw) + "%", "%" + Trim(raw) + "%"]
    ensures st.params != [] ==> st.sql == SearchWhere
    ensures CountChar(st.sql, '?') == |st.params|
  {
    var search := Trim(raw);
    SearchWhereMarks();
    if !PhpEmpty(search) then
      var pattern := "%" + search + "%";
      Statement(SearchWhere, [pattern, pattern, pattern])
    else
      Statement("", [])
  }

  /** Searching for the single character `0` applies no filter at all,
      although the trimmed term is not empty. */
  lemma SearchForZeroIsIgnored()
    ensures Trim("0") == "0"
    ensures SearchFilter("0") == Statement("", [])
  {
    assert TrimStart("0") == "0";
    assert TrimEnd("0") == "0";
  }

  /** The search clause with the emptiness test the page evidently intends:
      a filter for every non-blank term, including `0`. */
  function SearchFilterIntended(raw: string): (st: Statement<string>)
    ensures st.params == [] <==> forall i :: 0 <= i < |raw| ==> IsBlank(raw[i])
    ensures st.sql == "" <==> st.params == []
    ensures st.params != [] ==> st.params == ["%" + Trim(raw) + "%", "%" + Trim(raw) + "%", "%" + Trim(raw) + "%"]
    ensures st.params != [] ==> st.sql == SearchWhere
    ensures CountChar(st.sql, '?') == |st.params|
  {
    var search := Trim(raw);
    SearchWhereMarks();
    if search != "" then
      var pattern := "%" + search + "%";
      Statement(SearchWhere, [pattern, pattern, pattern])
    else
      Statement("", [])
  }

  /** The two agree on every term except `0` (after trimming). */
  lemma SearchFiltersAgreeExceptZero(raw: string)
    ensures Trim(raw) != "0" ==> SearchFilter(raw) == SearchFilterIntended(raw)
    ensures Trim(raw) == "0" ==> SearchFilter(raw) != SearchFilterIntended(raw)
  {
  }
}
