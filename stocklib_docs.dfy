/**
 * The document list of the downloader (stocklib-app/stocklib_app.py): the
 * links parsed from a company page, their order, and the session state
 * that records which documents are selected.
 */
module StocklibDocs {
  import opened Wrappers
  import opened Text

  /** A parsed link: the sort date, the category, the URL and the label shown. */
  datatype Link = Link(date: string, kind: string, url: string, displayName: string)

  // ---------------------------------------------------------------------
  // Credit ratings
  // ---------------------------------------------------------------------

  /** Labels longer than 60 characters keep their first 57 and end in "...". */
  function Shorten(s: string): (r: string)
    ensures |r| <= 60
    ensures |s| <= 60 ==> r == s
    ensures |s| > 60 ==> |r| == 60 && r[..57] == s[..57] && r[57..] == "..."
  {
    if |s| > 60 then s[..57] + "..." else s
  }

  /**
   * A credit-rating link: the link text, stripped, without the date text,
   * then the date in parentheses when there is one, shortened; its sort
   * date is "9999" so that ratings come before every dated document.
   */
  function CreditRatingLink(linkText: string, dateText: Option<string>, href: string): (l: Link)
    ensures l.date == "9999" && l.kind == "Credit_Rating" && l.url == href
    ensures |l.displayName| <= 60
  {
    var date := if dateText.Some? then Strip(dateText.value) else "";
    var title := Strip(Replace(Strip(linkText), date, ""));
    var shown := if date != "" then title + " (" + date + ")" else title;
    Link("9999", "Credit_Rating", href, Shorten(shown))
  }

  // ---------------------------------------------------------------------
  // Sorting by date, newest first
  // ---------------------------------------------------------------------

  /** Python's `<` on strings: lexicographic by code point. */
  predicate StrLess(a: string, b: string)
    decreases |a|
  {
    if a == [] then b != []
    else if b == [] then false
    else if a[0] != b[0] then a[0] < b[0]
    else StrLess(a[1..], b[1..])
  }

  lemma {:induction false} StrLessIrreflexive(a: string)
    ensures !StrLess(a, a)
    decreases |a|
  {
    if a != [] {
      StrLessIrreflexive(a[1..]);
    }
  }

  lemma {:induction false} StrLessTransitive(a: string, b: string, c: string)
    requires StrLess(a, b) && StrLess(b, c)
    ensures StrLess(a, c)
    decreases |a|
  {
    if a != [] && b != [] && c != [] && a[0] == b[0] && b[0] == c[0] {
      StrLessTransitive(a[1..], b[1..], c[1..]);
    }
  }

  lemma {:induction false} StrLessTotal(a: string, b: string)
    requires a != b
    ensures StrLess(a, b) || StrLess(b, a)
    decreases |a|
  {
    if a != [] && b != [] && a[0] == b[0] {
      assert a == [a[0]] + a[1..] && b == [b[0]] + b[1..];
      StrLessTotal(a[1..], b[1..]);
    }
  }

  /** No link has an earlier date than one after it. */
  predicate NewestFirst(links: seq<Link>) {
    forall i, j :: 0 <= i < j < |links| ==> !StrLess(links[i].date, links[j].date)
  }

  /** The links with a given date, in their order. */
  function WithDate(links: seq<Link>, date: string): seq<Link> {
    if links == [] then []
    else (if links[0].date == date then [links[0]] else []) + WithDate(links[1..], date)
  }

  lemma {:induction false} WithDateAppend(a: seq<Link>, b: seq<Link>, date: string)
    ensures WithDate(a + b, date) == WithDate(a, date) + WithDate(b, date)
  {
    if a == [] {
      assert a + b == b;
    } else {
      var head := if a[0].date == date then [a[0]] else [];
      assert (a + b)[0] == a[0] && (a + b)[1..] == a[1..] + b;
      WithDateAppend(a[1..], b, date);
      assert WithDate(a + b, date) == head + WithDate(a[1..] + b, date);
      assert WithDate(a, date) == head + WithDate(a[1..], date);
    }
  }

  /** `x` placed after every link whose date is not earlier than its own. */
  function Insert(x: Link, links: seq<Link>): (r: seq<Link>)
    ensures multiset(r) == multiset(links) + multiset{x}
  {
    if links == [] || StrLess(links[0].date, x.date) then [x] + links
    else
      assert links == [links[0]] + links[1..];
      [links[0]] + Insert(x, links[1..])
  }

  /**
   * `sorted(links, key=date, reverse=True)`: each link in turn is inserted
   * after those already placed that are not older, which keeps links of
   * equal date in their original order.
   */
  function SortNewestFirst(links: seq<Link>): (r: seq<Link>)
    ensures multiset(r) == multiset(links)
  {
    if links == [] then []
    else
      assert links == links[..|links| - 1] + [links[|links| - 1]];
      Insert(links[|links| - 1], SortNewestFirst(links[..|links| - 1]))
  }

  /** Inserting into a newest-first list keeps it newest first. */
  lemma {:induction false} InsertSorted(x: Link, links: seq<Link>)
    requires NewestFirst(links)
    ensures NewestFirst(Insert(x, links))
  {
    if links != [] && !StrLess(links[0].date, x.date) {
      NewestFirstTail(links);
      InsertSorted(x, links[1..]);
      InsertBehindSorted(x, links);
    } else if links != [] {
      InsertFrontSorted(x, links);
    }
  }

  /** `x` goes behind the first link: the first link is not older than anything after it. */
  lemma InsertBehindSorted(x: Link, links: seq<Link>)
    requires NewestFirst(links) && links != [] && !StrLess(links[0].date, x.date)
    requires NewestFirst(Insert(x, links[1..]))
    ensures NewestFirst(Insert(x, links))
  {
    var rest := Insert(x, links[1..]);
    var r := Insert(x, links);
    assert r == [links[0]] + rest;
    forall i, j | 0 <= i < j < |r|
      ensures !StrLess(r[i].date, r[j].date)
    {
      if i == 0 {
        assert r[j] == rest[j - 1];
        assert r[j] in multiset(links[1..]) + multiset{x};
        if r[j] != x {
          var k :| 0 <= k < |links[1..]| && links[1..][k] == r[j];
          assert links[k + 1] == r[j];
        }
      } else {
        assert r[i] == rest[i - 1] && r[j] == rest[j - 1];
      }
    }
  }

  /** `x` goes in front: it is newer than the first link and so than every link. */
  lemma InsertFrontSorted(x: Link, links: seq<Link>)
    requires NewestFirst(links) && links != [] && StrLess(links[0].date, x.date)
    ensures NewestFirst(Insert(x, links))
  {
    var r := Insert(x, links);
    assert r == [x] + links;
    forall i, j | 0 <= i < j < |r|
      ensures !StrLess(r[i].date, r[j].date)
    {
      assert r[j] == links[j - 1];
      if i == 0 && j == 1 {
        StrLessTrans2(links[0].date, x.date);
      } else if i == 0 {
        NotOlder(links[0].date, links[j - 1].date, x.date);
      } else {
        assert r[i] == links[i - 1];
      }
    }
  }

  /** If `b` is not newer than `a` and `a` is older than `c`, then `c` is not older than `b`. */
  lemma NotOlder(a: string, b: string, c: string)
    requires !StrLess(a, b) && StrLess(a, c)
    ensures !StrLess(c, b)
  {
    if a == b {
      StrLessTrans2(b, c);
    } else {
      StrLessTotal(a, b);
      StrLessTransitive(b, a, c);
      StrLessTrans2(b, c);
    }
  }

  lemma StrLessTrans2(b: string, c: string)
    requires StrLess(b, c)
    ensures !StrLess(c, b)
  {
    if StrLess(c, b) {
      StrLessTransitive(b, c, b);
      StrLessIrreflexive(b);
    }
  }

  /** In a newest-first list whose first link is older than `date`, no link has that date. */
  lemma {:induction false} NoneWithDate(links: seq<Link>, date: string)
    requires NewestFirst(links) && links != [] && StrLess(links[0].date, date)
    ensures WithDate(links, date) == []
  {
    StrLessIrreflexive(date);
    if |links| > 1 {
      assert !StrLess(links[0].date, links[1].date);
      if links[1].date != links[0].date {
        StrLessTotal(links[0].date, links[1].date);
        StrLessTransitive(links[1].date, links[0].date, date);
      }
      NoneWithDate(links[1..], date);
    }
  }

  /** Inserting `x` adds it to the end of its own date's run and leaves other dates' runs alone. */
  lemma {:induction false} InsertStable(x: Link, links: seq<Link>, date: string)
    requires NewestFirst(links)
    ensures WithDate(Insert(x, links), date) == WithDate(links, date) + (if x.date == date then [x] else [])
  {
    var mine := if x.date == date then [x] else [];
    if links == [] || StrLess(links[0].date, x.date) {
      assert ([x] + links)[1..] == links;
      assert WithDate(Insert(x, links), date) == mine + WithDate(links, date);
      if x.date == date && links != [] {
        NoneWithDate(links, date);
      }
    } else {
      var head := if links[0].date == date then [links[0]] else [];
      NewestFirstTail(links);
      InsertStable(x, links[1..], date);
      assert ([links[0]] + Insert(x, links[1..]))[1..] == Insert(x, links[1..]);
      assert WithDate(Insert(x, links), date) == head + WithDate(Insert(x, links[1..]), date);
      assert WithDate(links, date) == head + WithDate(links[1..], date);
    }
  }

  lemma NewestFirstTail(links: seq<Link>)
    requires NewestFirst(links) && links != []
    ensures NewestFirst(links[1..])
  {
    forall i, j | 0 <= i < j < |links[1..]|
      ensures !StrLess(links[1..][i].date, links[1..][j].date)
    {
      assert links[1..][i] == links[i + 1] && links[1..][j] == links[j + 1];
    }
  }

  /** The result is newest first. */
  lemma {:induction false} SortSorted(links: seq<Link>)
    ensures NewestFirst(SortNewestFirst(links))
  {
    if links != [] {
      SortSorted(links[..|links| - 1]);
      InsertSorted(links[|links| - 1], SortNewestFirst(links[..|links| - 1]));
    }
  }

  /** The sort is stable: the links of any one date come out in the order they went in. */
  lemma {:induction false} SortStable(links: seq<Link>, date: string)
    ensures WithDate(SortNewestFirst(links), date) == WithDate(links, date)
  {
    if links != [] {
      var front := links[..|links| - 1];
      var last := links[|links| - 1];
      var sorted := SortNewestFirst(front);
      SortSorted(front);
      var mine := if last.date == date then [last] else [];
      calc {
        WithDate(SortNewestFirst(links), date);
        WithDate(Insert(last, sorted), date);
        { InsertStable(last, sorted, date); }
        WithDate(sorted, date) + mine;
        { SortStable(front, date); }
        WithDate(front, date) + mine;
        { assert WithDate([last], date) == mine; }
        WithDate(front, date) + WithDate([last], date);
        { WithDateAppend(front, [last], date); }
        WithDate(front + [last], date);
        { assert links == front + [last]; }
        WithDate(links, date);
      }
    }
  }

  // ---------------------------------------------------------------------
  // Search results and selections
  // ---------------------------------------------------------------------

  /** The categories the session groups documents under. */
  const Categories: seq<string> := ["Annual_Report", "Transcript", "PPT", "Credit_Rating"]

  /** Every category's "select all" box ticked. */
  const AllCategoriesOn: map<string, bool> := map k | k in Categories :: true

  /** The links of one category, in order. */
  function OfKind(links: seq<Link>, kind: string): seq<Link> {
    if links == [] then []
    else OfKind(links[..|links| - 1], kind) + (if links[|links| - 1].kind == kind then [links[|links| - 1]] else [])
  }

  /** A category's list holds exactly the links of that category. */
  lemma {:induction false} OfKindMembers(links: seq<Link>, kind: string)
    ensures forall l :: l in OfKind(links, kind) <==> l in links && l.kind == kind
  {
    if links != [] {
      OfKindMembers(links[..|links| - 1], kind);
      assert links == links[..|links| - 1] + [links[|links| - 1]];
    }
  }

  /** The URLs of links whose category is one of the four. */
  function ListedUrls(links: seq<Link>): set<string> {
    set i | 0 <= i < |links| && links[i].kind in Categories :: links[i].url
  }

  /** The URLs of a list of links. */
  function Urls(links: seq<Link>): set<string> {
    set i | 0 <= i < |links| :: links[i].url
  }

  /** After a search, a link of a known category is listed under it and selected. */
  lemma ListedAndSelected(links: seq<Link>, l: Link)
    requires l in links && l.kind in Categories
    ensures l in OfKind(links, l.kind) && l.url in ListedUrls(links)
  {
    OfKindMembers(links, l.kind);
    var i :| 0 <= i < |links| && links[i] == l;
  }

  /** The grouping loop of `perform_search`, link by link: documents by category, and selections. */
  function Grouped(links: seq<Link>): (map<string, seq<Link>>, map<string, bool>) {
    if links == [] then (map k | k in Categories :: [], map[])
    else
      GroupStep(Grouped(links[..|links| - 1]), links[|links| - 1])
  }

  /** One link of the grouping loop: a link of a known category is appended to it and selected. */
  function GroupStep(g: (map<string, seq<Link>>, map<string, bool>), l: Link): (map<string, seq<Link>>, map<string, bool>) {
    if l.kind in g.0 then (g.0[l.kind := g.0[l.kind] + [l]], g.1[l.url := true]) else g
  }

  /** The grouping of one more link is one more step after the links before it. */
  lemma GroupedSnoc(links: seq<Link>, i: nat)
    requires i < |links|
    ensures Grouped(links[..i + 1]) == GroupStep(Grouped(links[..i]), links[i])
  {
    assert links[..i + 1][..i] == links[..i];
  }

  /** The documents are keyed by exactly the categories. */
  lemma {:induction false} GroupedKeys(links: seq<Link>)
    ensures Grouped(links).0.Keys == set k | k in Categories
  {
    if links != [] {
      GroupedKeys(links[..|links| - 1]);
    }
  }

  /** The loop groups each category's links in order. */
  lemma {:induction false} GroupedDocuments(links: seq<Link>)
    ensures var docs := Grouped(links).0;
      forall k :: k in docs ==> docs[k] == OfKind(links, k)
  {
    if links != [] {
      GroupedDocuments(links[..|links| - 1]);
    }
  }

  /** The loop selects exactly the URLs of the links it groups. */
  lemma {:induction false} GroupedSelections(links: seq<Link>)
    ensures Grouped(links).1 == map u | u in ListedUrls(links) :: true
  {
    if links != [] {
      var front := links[..|links| - 1];
      var l := links[|links| - 1];
      GroupedSelections(front);
      GroupedKeys(front);
      assert forall j :: 0 <= j < |front| ==> links[j] == front[j];
      assert ListedUrls(links) == ListedUrls(front) + (if l.kind in Categories then {l.url} else {});
    }
  }

  /** The selections after `toggle_category`'s loop over `docs`. */
  function Toggled(selections: map<string, bool>, docs: seq<Link>, value: bool): map<string, bool> {
    if docs == [] then selections else Toggled(selections, docs[..|docs| - 1], value)[docs[|docs| - 1].url := value]
  }

  /** The checkbox states after that loop: only checkboxes that exist are set. */
  function ToggledWidgets(widgets: map<string, bool>, docs: seq<Link>, value: bool): map<string, bool> {
    if docs == [] then widgets
    else
      var w := ToggledWidgets(widgets, docs[..|docs| - 1], value);
      if docs[|docs| - 1].url in w then w[docs[|docs| - 1].url := value] else w
  }

  /** Every document of the category ends up with the checkbox's value, and nothing else changes. */
  lemma {:induction false} ToggledIs(selections: map<string, bool>, docs: seq<Link>, value: bool)
    ensures var t := Toggled(selections, docs, value);
      t.Keys == selections.Keys + Urls(docs)
      && forall u :: u in t ==> t[u] == (if u in Urls(docs) then value else selections[u])
  {
    if docs != [] {
      var front := docs[..|docs| - 1];
      ToggledIs(selections, front, value);
      assert forall j :: 0 <= j < |front| ==> docs[j] == front[j];
      assert Urls(docs) == Urls(front) + {docs[|docs| - 1].url};
    }
  }

  /** The existing checkboxes of the category's documents take the value; no checkbox is created. */
  lemma {:induction false} ToggledWidgetsAre(widgets: map<string, bool>, docs: seq<Link>, value: bool)
    ensures var w := ToggledWidgets(widgets, docs, value);
      w.Keys == widgets.Keys
      && forall u :: u in w ==> w[u] == (if u in Urls(docs) then value else widgets[u])
  {
    if docs != [] {
      var front := docs[..|docs| - 1];
      ToggledWidgetsAre(widgets, front, value);
      assert forall j :: 0 <= j < |front| ==> docs[j] == front[j];
      assert Urls(docs) == Urls(front) + {docs[|docs| - 1].url};
    }
  }

  /** The Streamlit session state of the page. */
  class Session {
    var searchPerformed: bool
    var documents: map<string, seq<Link>>
    var selections: map<string, bool>
    /** The checkbox values Streamlit keeps under each document's URL. */
    var widgets: map<string, bool>
    /** The "select all" checkbox of each category. */
    var selectAll: map<string, bool>

    /** The state a fresh session starts with. */
    constructor()
      ensures !searchPerformed && selections == map[] && widgets == map[] && selectAll == map[]
      ensures documents == map k | k in Categories :: []
    {
      searchPerformed := false;
      documents := map k | k in Categories :: [];
      selections := map[];
      widgets := map[];
      selectAll := map[];
    }

    /**
     * `perform_search`: an empty ticker is refused; a failed fetch clears
     * `search_performed`; otherwise the page's links, newest first, are
     * grouped by category and every one of them is selected. `scrape`
     * stands for fetching the company page for a ticker and reading its
     * links in page order.
     */
    method PerformSearch(input: string, scrape: string -> Result<seq<Link>>) returns (error: Option<string>)
      modifies this`searchPerformed, this`documents, this`selections, this`selectAll
      ensures Strip(input) == [] ==>
        error == Some("Please enter a ticker") && searchPerformed == old(searchPerformed)
        && documents == old(documents) && selections == old(selections) && selectAll == old(selectAll)
      ensures Strip(input) != [] && scrape(Upper(Strip(input))).Err? ==>
        error == Some("Error: " + scrape(Upper(Strip(input))).error) && !searchPerformed
        && documents == old(documents) && selections == old(selections) && selectAll == old(selectAll)
      ensures Strip(input) != [] && scrape(Upper(Strip(input))).Ok? ==>
        var links := SortNewestFirst(scrape(Upper(Strip(input))).value);
        && error.None? && searchPerformed
        && documents.Keys == (set k | k in Categories)
        && (forall k :: k in documents ==> documents[k] == OfKind(links, k))
        && selections == (map u | u in ListedUrls(links) :: true)
        && selectAll == old(selectAll) + AllCategoriesOn
    {
      var ticker := Upper(Strip(input));
      if ticker == [] {
        return Some("Please enter a ticker");
      }
      var result := scrape(ticker);
      if result.Err? {
        searchPerformed := false;
        return Some("Error: " + result.error);
      }
      var links := SortNewestFirst(result.value);
      var docs: map<string, seq<Link>> := map k | k in Categories :: [];
      var chosen: map<string, bool> := map[];
      var i := 0;
      while i < |links|
        invariant 0 <= i <= |links|
        invariant docs == Grouped(links[..i]).0 && chosen == Grouped(links[..i]).1
        invariant selectAll == old(selectAll)
      {
        GroupedSnoc(links, i);
        var link := links[i];
        if link.kind in docs {
          docs := docs[link.kind := docs[link.kind] + [link]];
          chosen := chosen[link.url := true];
        }
        i := i + 1;
      }
      assert links[..i] == links;
      GroupedKeys(links);
      GroupedDocuments(links);
      GroupedSelections(links);
      documents := docs;
      selections := chosen;
      searchPerformed := true;
      selectAll := selectAll + AllCategoriesOn;
      error := None;
    }

    /**
     * `toggle_category`: every document of the category takes the value of
     * the category's checkbox, and so does its own checkbox where Streamlit
     * has one.
     */
    method ToggleCategory(category: string, value: bool)
      requires category in documents
      modifies this`selections, this`widgets
      ensures selections.Keys == old(selections).Keys + Urls(documents[category])
      ensures forall u :: u in selections ==>
        selections[u] == (if u in Urls(documents[category]) then value else old(selections)[u])
      ensures widgets.Keys == old(widgets).Keys
      ensures forall u :: u in widgets ==> widgets[u] == (if u in Urls(documents[category]) then value else old(widgets)[u])
    {
      var docs := documents[category];
      var i := 0;
      while i < |docs|
        invariant 0 <= i <= |docs|
        invariant selections == Toggled(old(selections), docs[..i], value)
        invariant widgets == ToggledWidgets(old(widgets), docs[..i], value)
      {
        assert docs[..i + 1][..i] == docs[..i];
        var url := docs[i].url;
        selections := selections[url := value];
        if url in widgets {
          widgets := widgets[url := value];
        }
        i := i + 1;
      }
      assert docs[..i] == docs;
      ToggledIs(old(selections), docs, value);
      ToggledWidgetsAre(old(widgets), docs, value);
    }
  }
}
