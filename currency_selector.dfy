/** The base-currency picker: a case-insensitive search over the supported currencies and the
    open / search state of its drop-down. */
module CurrencySelector {
  import opened Text
  import opened Types

  /** A currency matches a search term when its lower-cased code or label includes the
      lower-cased term. */
  predicate Matches(c: Currency, search: string) {
    Contains(Lower(c.code), Lower(search)) || Contains(Lower(c.caption), Lower(search))
  }

  /** `filteredCurrencies`: the currencies that match, in list order. */
  function FilterCurrencies(list: seq<Currency>, search: string): (r: seq<Currency>)
    ensures |r| <= |list|
  {
    if list == [] then []
    else (if Matches(list[0], search) then [list[0]] else []) + FilterCurrencies(list[1..], search)
  }

  /** `a` is `b` with some elements dropped, order kept. */
  predicate Subsequence<T(==)>(a: seq<T>, b: seq<T>)
    decreases |b|
  {
    if b == [] then a == []
    else (a != [] && a[0] == b[0] && Subsequence(a[1..], b[1..])) || Subsequence(a, b[1..])
  }

  /** A currency is listed exactly when it is supported and matches the term. */
  lemma {:induction false} FilterMembership(list: seq<Currency>, search: string, c: Currency)
    ensures c in FilterCurrencies(list, search) <==> c in list && Matches(c, search)
  {
    if list != [] {
      FilterMembership(list[1..], search, c);
      assert list == [list[0]] + list[1..];
    }
  }

  /** The filter keeps the list's order: its result is a subsequence of the list. */
  lemma {:induction false} FilterIsSubsequence(list: seq<Currency>, search: string)
    ensures Subsequence(FilterCurrencies(list, search), list)
  {
    if list != [] {
      FilterIsSubsequence(list[1..], search);
      var rest := FilterCurrencies(list[1..], search);
      if Matches(list[0], search) {
        assert FilterCurrencies(list, search) == [list[0]] + rest;
        assert ([list[0]] + rest)[1..] == rest;
      } else {
        assert FilterCurrencies(list, search) == rest;
      }
    }
  }

  /** An empty search lists every currency. */
  lemma {:induction false} EmptySearchListsAll(list: seq<Currency>)
    ensures FilterCurrencies(list, "") == list
  {
    if list != [] {
      EmptySearchListsAll(list[1..]);
      assert OccursAt(Lower(list[0].code), Lower(""), 0);
      assert list == [list[0]] + list[1..];
    }
  }

  /** Searching ignores case: terms equal after lower-casing list the same currencies. */
  lemma {:induction false} SearchIgnoresCase(list: seq<Currency>, t: string, u: string)
    requires Lower(t) == Lower(u)
    ensures FilterCurrencies(list, t) == FilterCurrencies(list, u)
  {
    if list != [] {
      SearchIgnoresCase(list[1..], t, u);
    }
  }

  /** A match for a longer term is a match for its prefix. */
  lemma MatchesPrefix(c: Currency, t: string, u: string)
    requires Matches(c, t + u)
    ensures Matches(c, t)
  {
    LowerConcat(t, u);
    if Contains(Lower(c.code), Lower(t + u)) {
      ContainsPrefix(Lower(c.code), Lower(t), Lower(u));
    } else {
      ContainsPrefix(Lower(c.caption), Lower(t), Lower(u));
    }
  }

  /** Typing more characters only narrows the list: the longer term's result is a
      subsequence of the shorter term's. */
  lemma {:induction false} TypingNarrows(list: seq<Currency>, t: string, u: string)
    ensures Subsequence(FilterCurrencies(list, t + u), FilterCurrencies(list, t))
  {
    if list != [] {
      TypingNarrows(list[1..], t, u);
      var longer := FilterCurrencies(list[1..], t + u);
      var shorter := FilterCurrencies(list[1..], t);
      if Matches(list[0], t + u) {
        MatchesPrefix(list[0], t, u);
        assert FilterCurrencies(list, t + u) == [list[0]] + longer;
        assert FilterCurrencies(list, t) == [list[0]] + shorter;
        assert ([list[0]] + longer)[1..] == longer;
        assert ([list[0]] + shorter)[1..] == shorter;
      } else if Matches(list[0], t) {
        assert FilterCurrencies(list, t + u) == longer;
        assert FilterCurrencies(list, t) == [list[0]] + shorter;
        assert ([list[0]] + shorter)[1..] == shorter;
      } else {
        assert FilterCurrencies(list, t + u) == longer;
        assert FilterCurrencies(list, t) == shorter;
      }
    }
  }

  /** The "no matching currency" message shows exactly when no supported currency matches. */
  lemma NothingFoundExactly(search: string)
    ensures |FilterCurrencies(SupportedCurrencies, search)| == 0 <==>
      forall c :: c in SupportedCurrencies ==> !Matches(c, search)
  {
    var r := FilterCurrencies(SupportedCurrencies, search);
    forall c ensures c in r <==> c in SupportedCurrencies && Matches(c, search) {
      FilterMembership(SupportedCurrencies, search, c);
    }
    assert |r| > 0 ==> r[0] in r;
  }

  /** The drop-down's state. */
  class Selector {
    var isOpen: bool
    var search: string

    /** Closed, with an empty search. */
    constructor ()
      ensures !isOpen && search == ""
    {
      isOpen := false;
      search := "";
    }

    /** The currencies the open drop-down lists. */
    function Shown(): (r: seq<Currency>)
      reads this
      ensures Subsequence(r, SupportedCurrencies)
      ensures forall c :: c in r <==> c in SupportedCurrencies && Matches(c, search)
    {
      FilterIsSubsequence(SupportedCurrencies, search);
      forall c ensures c in FilterCurrencies(SupportedCurrencies, search) <==>
          c in SupportedCurrencies && Matches(c, search) {
        FilterMembership(SupportedCurrencies, search, c);
      }
      FilterCurrencies(SupportedCurrencies, search)
    }

    /** The toggle button: opens a closed drop-down and closes an open one. */
    method Toggle()
      modifies this
      ensures isOpen == !old(isOpen) && search == old(search)
    {
      isOpen := !isOpen;
    }

    /** Escape or a click outside the picker closes it, keeping the search. */
    method Dismiss()
      modifies this
      ensures !isOpen && search == old(search)
    {
      isOpen := false;
    }

    /** Typing in the search box. */
    method SetSearch(term: string)
      modifies this
      ensures search == term && isOpen == old(isOpen)
      ensures Shown() == FilterCurrencies(SupportedCurrencies, term)
    {
      search := term;
    }

    /** The clear button: the whole list is shown again. */
    method ClearSearch()
      modifies this
      ensures search == "" && isOpen == old(isOpen)
      ensures Shown() == SupportedCurrencies
    {
      search := "";
      EmptySearchListsAll(SupportedCurrencies);
      assert Shown() == FilterCurrencies(SupportedCurrencies, "");
    }

    /** Clicking a listed currency hands it to the dashboard, closes the picker and clears
        the search. */
    method Choose(c: Currency) returns (chosen: Currency)
      requires isOpen && c in Shown()
      modifies this
      ensures chosen == c && chosen in SupportedCurrencies
      ensures !isOpen && search == ""
    {
      assert c in SupportedCurrencies;
      chosen := c;
      isOpen := false;
      search := "";
    }
  }
}
