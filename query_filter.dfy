/** The search box of the front end: the institutions whose name contains the query,
    ignoring case and the whitespace around the query. */
module QueryFilter {
  import opened Strings
  import opened Registry

  /** `query.trim().toLowerCase()`. */
  function Needle(query: string): string {
    Lower(Trim(query))
  }

  /** The records whose lower-cased name contains `q`, in table order. */
  function Keep(data: seq<Record>, q: string): (r: seq<Record>)
    ensures |r| <= |data|
    ensures forall u :: u in r <==> u in data && Contains(Lower(u.nombre), q)
  {
    if data == [] then []
    else
      var rest := Keep(data[1..], q);
      assert forall u :: u in data <==> u == data[0] || u in data[1..];
      if Contains(Lower(data[0].nombre), q) then [data[0]] + rest else rest
  }

  /** The filtered list the page renders. */
  function Filter(data: seq<Record>, query: string): (r: seq<Record>)
    ensures Needle(query) == [] ==> r == data
    ensures Needle(query) != [] ==>
      forall u :: u in r <==> u in data && Contains(Lower(u.nombre), Needle(query))
  {
    var q := Needle(query);
    if q == [] then data else Keep(data, q)
  }

  /** `filter` keeps every matching record as often as the table holds it, and drops every
      other record. */
  lemma {:induction false} KeepCounts(data: seq<Record>, q: string, u: Record)
    ensures multiset(Keep(data, q))[u] == if Contains(Lower(u.nombre), q) then multiset(data)[u] else 0
  {
    if data != [] {
      KeepCounts(data[1..], q, u);
      assert data == [data[0]] + data[1..];
    }
  }

  /** The same for the page's filter: with a non-empty needle each record appears as often
      as in the table when it matches, and not at all otherwise. */
  lemma FilterCounts(data: seq<Record>, query: string, u: Record)
    ensures Needle(query) == [] ==> multiset(Filter(data, query))[u] == multiset(data)[u]
    ensures Needle(query) != [] ==>
      multiset(Filter(data, query))[u] == (if Contains(Lower(u.nombre), Needle(query)) then multiset(data)[u] else 0)
  {
    KeepCounts(data, Needle(query), u);
  }

  /** `a` is `b` with some elements dropped, the rest in their order. */
  predicate Subsequence(a: seq<Record>, b: seq<Record>) {
    if a == [] then true
    else if b == [] then false
    else if a[0] == b[0] then Subsequence(a[1..], b[1..])
    else Subsequence(a, b[1..])
  }

  lemma {:induction false} SubsequenceOfSelf(b: seq<Record>)
    ensures Subsequence(b, b)
  {
    if b != [] {
      SubsequenceOfSelf(b[1..]);
    }
  }

  lemma {:induction false} KeepIsSubsequence(data: seq<Record>, q: string)
    ensures Subsequence(Keep(data, q), data)
  {
    if data != [] {
      KeepIsSubsequence(data[1..], q);
      var rest := Keep(data[1..], q);
      if Contains(Lower(data[0].nombre), q) {
        assert ([data[0]] + rest)[1..] == rest;
      } else if rest != [] {
        assert rest == Keep(data, q);
      }
    }
  }

  /** Filtering keeps the table order and never invents or repeats a record. */
  lemma FilterIsSubsequence(data: seq<Record>, query: string)
    ensures Subsequence(Filter(data, query), data)
  {
    if Needle(query) == [] {
      SubsequenceOfSelf(data);
    } else {
      KeepIsSubsequence(data, Needle(query));
    }
  }

  /** Case mapping only moves letters, and no letter is whitespace. */
  lemma LowerKeepsWhitespace(c: char)
    ensures IsWhitespace(LowerChar(c)) == IsWhitespace(c)
  {
  }

  lemma {:induction false} LowerTrimStart(s: string)
    ensures Lower(TrimStart(s)) == TrimStart(Lower(s))
  {
    if s != [] {
      var l := Lower(s);
      assert l[0] == LowerChar(s[0]);
      LowerKeepsWhitespace(s[0]);
      if IsWhitespace(s[0]) {
        assert l[1..] == Lower(s[1..]);
        LowerTrimStart(s[1..]);
      }
    }
  }

  lemma {:induction false} LowerTrimEnd(s: string)
    ensures Lower(TrimEnd(s)) == TrimEnd(Lower(s))
  {
    if s != [] {
      var l := Lower(s);
      var n := |s| - 1;
      assert l[n] == LowerChar(s[n]);
      LowerKeepsWhitespace(s[n]);
      if IsWhitespace(s[n]) {
        LowerPrefix(s, n);
        LowerTrimEnd(s[..n]);
      } else {
        assert TrimEnd(s) == s;
        assert TrimEnd(l) == l;
      }
    }
  }

  lemma LowerPrefix(s: string, n: nat)
    requires n <= |s|
    ensures Lower(s)[..n] == Lower(s[..n])
  {
  }

  /** Lower-casing and trimming commute: case never turns a letter into whitespace. */
  lemma LowerTrim(s: string)
    ensures Needle(s) == Trim(Lower(s))
  {
    LowerTrimStart(s);
    LowerTrimEnd(TrimStart(s));
  }

  /** Queries that differ only in letter case select the same records. */
  lemma CaseInsensitive(data: seq<Record>, query: string, query': string)
    requires SameIgnoringCase(query, query')
    ensures Filter(data, query) == Filter(data, query')
  {
    LowerTrim(query);
    LowerTrim(query');
  }

  /** Whitespace around a query does not change the selection. */
  lemma PaddingIgnored(data: seq<Record>, w1: string, query: string, w2: string)
    requires AllWhitespace(w1) && AllWhitespace(w2)
    ensures Filter(data, w1 + query + w2) == Filter(data, query)
  {
    TrimPadded(w1, query, w2);
  }
}
