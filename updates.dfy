/** The updates feed (Updates.tsx): search, type and tag filtering, the list
    of distinct tags, pagination by five, and the tag and page controls. */
module Updates {
  import opened Common
  import opened Text

  datatype Update = Update(id: string, date: string, title: string, description: string,
                           kind: string, tags: seq<string>)

  /** The filter inputs: `searchTerm`, `selectedType`, `selectedTags`. */
  datatype Query = Query(searchTerm: string, selectedType: string, selectedTags: seq<string>)

  const ItemsPerPage: nat := 5

  // ---------------------------------------------------------------------------
  // Sequence vocabulary
  // ---------------------------------------------------------------------------

  predicate NoDuplicates<T(==)>(s: seq<T>) {
    forall i, j :: 0 <= i < j < |s| ==> s[i] != s[j]
  }

  /** The position of the first occurrence of `x` in `s`. */
  function IndexOf<T(==)>(s: seq<T>, x: T): (k: nat)
    requires x in s
    ensures k < |s| && s[k] == x && x !in s[..k]
  {
    if s[0] == x then 0 else 1 + IndexOf(s[1..], x)
  }

  lemma {:induction false} IndexOfExtend<T>(s: seq<T>, y: T, x: T)
    requires x in s
    ensures IndexOf(s + [y], x) == IndexOf(s, x)
    decreases |s|
  {
    if s[0] != x {
      assert (s + [y])[1..] == s[1..] + [y];
      IndexOfExtend(s[1..], y, x);
    }
  }

  lemma {:induction false} IndexOfAppended<T>(s: seq<T>, x: T)
    requires x !in s
    ensures IndexOf(s + [x], x) == |s|
    decreases |s|
  {
    if s != [] {
      assert (s + [x])[1..] == s[1..] + [x];
      IndexOfAppended(s[1..], x);
    }
  }

  // ---------------------------------------------------------------------------
  // Filtering
  // ---------------------------------------------------------------------------

  /** Case-insensitive substring search on the title or the description. */
  predicate MatchesSearch(u: Update, term: string): (b: bool)
    ensures b <==> (exists i :: OccursAt(ToLower(u.title), ToLower(term), i)) ||
                   (exists i :: OccursAt(ToLower(u.description), ToLower(term), i))
  {
    ContainsIff(ToLower(u.title), ToLower(term));
    ContainsIff(ToLower(u.description), ToLower(term));
    Contains(ToLower(u.title), ToLower(term)) || Contains(ToLower(u.description), ToLower(term))
  }

  /** Type 'all' lets every update through; any other type only its own. */
  predicate MatchesType(u: Update, selectedType: string): (b: bool)
    ensures selectedType == "all" ==> b
    ensures selectedType != "all" ==> (b <==> u.kind == selectedType)
  {
    selectedType == "all" || u.kind == selectedType
  }

  /** No tag selected, or at least one selected tag among the update's tags. */
  predicate MatchesTags(u: Update, selectedTags: seq<string>): (b: bool)
    ensures selectedTags == [] ==> b
    ensures b <==> selectedTags == [] || exists i :: 0 <= i < |selectedTags| && selectedTags[i] in u.tags
  {
    |selectedTags| == 0 || exists t :: t in selectedTags && t in u.tags
  }

  predicate Matches(u: Update, q: Query) {
    MatchesSearch(u, q.searchTerm) && MatchesType(u, q.selectedType) && MatchesTags(u, q.selectedTags)
  }

  /** `filteredUpdates`: the updates that match, in their original order. */
  function Filtered(us: seq<Update>, q: Query): (r: seq<Update>)
    ensures IsSubsequence(r, us)
    ensures forall u :: u in r <==> u in us && Matches(u, q)
    ensures forall u :: multiset(r)[u] == if Matches(u, q) then multiset(us)[u] else 0
    decreases |us|
  {
    if us == [] then []
    else
      assert us == [us[0]] + us[1..];
      if Matches(us[0], q) then [us[0]] + Filtered(us[1..], q)
      else Filtered(us[1..], q)
  }

  /** The empty search term matches every update. */
  lemma EmptySearchMatches(u: Update)
    ensures MatchesSearch(u, "")
  {
    assert ToLower("") == "";
    assert StartsWith(ToLower(u.title), "");
  }

  /** With the initial filters (empty search, type 'all', no tags) nothing is
      filtered out. */
  lemma {:induction false} InitialQueryKeepsAll(us: seq<Update>)
    ensures Filtered(us, Query("", "all", [])) == us
    decreases |us|
  {
    if us != [] {
      EmptySearchMatches(us[0]);
      InitialQueryKeepsAll(us[1..]);
    }
  }

  lemma LowerCharIdempotent(c: char)
    ensures LowerChar(LowerChar(c)) == LowerChar(c)
  {
  }

  /** The search does not see case: a term and its lower-case form match the
      same updates. */
  lemma SearchIgnoresCase(u: Update, term: string)
    ensures MatchesSearch(u, term) <==> MatchesSearch(u, ToLower(term))
  {
    forall i | 0 <= i < |term|
      ensures ToLower(ToLower(term))[i] == ToLower(term)[i]
    {
      LowerCharIdempotent(term[i]);
    }
    assert ToLower(ToLower(term)) == ToLower(term);
  }

  // ---------------------------------------------------------------------------
  // Distinct tags
  // ---------------------------------------------------------------------------

  /** `updates.flatMap(update => update.tags)`. */
  function TagOccurrences(us: seq<Update>): (r: seq<string>)
    ensures forall t :: t in r <==> exists u :: u in us && t in u.tags
    decreases |us|
  {
    if us == [] then []
    else
      var rest := TagOccurrences(us[1..]);
      assert forall u :: u in us[1..] ==> u in us;
      assert forall u :: u in us ==> u == us[0] || u in us[1..];
      us[0].tags + rest
  }

  /** The tags of a single update are its own tags, in order. */
  lemma TagOccurrencesOne(u: Update)
    ensures TagOccurrences([u]) == u.tags
  {
    assert [u][1..] == [];
  }

  /** `flatMap` distributes over concatenation: the tags of a list are the
      tags of its first part followed by those of the rest. */
  lemma {:induction false} TagOccurrencesConcat(a: seq<Update>, b: seq<Update>)
    ensures TagOccurrences(a + b) == TagOccurrences(a) + TagOccurrences(b)
    decreases |a|
  {
    if a == [] {
      assert a + b == b;
    } else {
      assert (a + b)[0] == a[0];
      assert (a + b)[1..] == a[1..] + b;
      TagOccurrencesConcat(a[1..], b);
    }
  }

  /** `Array.from(new Set(s))`: each element once, at its first occurrence. */
  function Distinct(s: seq<string>): (r: seq<string>)
    ensures NoDuplicates(r)
    ensures forall x :: x in r <==> x in s
    decreases |s|
  {
    if s == [] then []
    else
      var d := Distinct(s[..|s| - 1]);
      var last := s[|s| - 1];
      assert s == s[..|s| - 1] + [last];
      if last in d then d else d + [last]
  }

  /** The distinct elements come in the order of their first occurrences. */
  lemma {:induction false} DistinctFirstOccurrenceOrder(s: seq<string>)
    ensures forall i, j :: 0 <= i < j < |Distinct(s)| ==>
              IndexOf(s, Distinct(s)[i]) < IndexOf(s, Distinct(s)[j])
    decreases |s|
  {
    if s != [] {
      var p, last := s[..|s| - 1], s[|s| - 1];
      assert s == p + [last];
      var d := Distinct(p);
      DistinctFirstOccurrenceOrder(p);
      forall x | x in d
        ensures IndexOf(s, x) == IndexOf(p, x) < |p|
      {
        IndexOfExtend(p, last, x);
      }
      if last !in d {
        IndexOfAppended(p, last);
        assert Distinct(s) == d + [last];
      }
    }
  }

  /** `allTags`: every tag of every update exactly once, in first-occurrence
      order. */
  function AllTags(us: seq<Update>): (r: seq<string>)
    ensures NoDuplicates(r)
    ensures forall t :: t in r <==> exists u :: u in us && t in u.tags
    ensures forall t :: t in r ==> t in TagOccurrences(us)
    ensures forall i, j :: 0 <= i < j < |r| ==>
              IndexOf(TagOccurrences(us), r[i]) < IndexOf(TagOccurrences(us), r[j])
  {
    DistinctFirstOccurrenceOrder(TagOccurrences(us));
    Distinct(TagOccurrences(us))
  }

  // ---------------------------------------------------------------------------
  // Pagination
  // ---------------------------------------------------------------------------

  /** `Math.ceil(n / 5)`: the fewest pages of five that hold `n` items. */
  function TotalPages(n: nat): (p: nat)
    ensures n <= p * ItemsPerPage
    ensures p == 0 || (p - 1) * ItemsPerPage < n
  {
    (n + ItemsPerPage - 1) / ItemsPerPage
  }

  /** `s.slice(start, end)` for non-negative bounds: both are clamped to the
      length, and a start past the end gives the empty list. */
  function Slice<T>(s: seq<T>, start: nat, end: nat): (r: seq<T>)
    ensures start >= end || start >= |s| ==> r == []
    ensures start < end && start < |s| ==> |r| == (if end < |s| then end else |s|) - start
    ensures forall i :: 0 <= i < |r| ==> start + i < |s| && r[i] == s[start + i]
  {
    var a := if start < |s| then start else |s|;
    var b := if end < |s| then end else |s|;
    if a <= b then s[a..b] else []
  }

  /** `paginatedUpdates` for page `page`: at most five items, and non-empty
      exactly for the pages 1..TotalPages. */
  function Page<T>(s: seq<T>, page: nat): (r: seq<T>)
    requires page >= 1
    ensures |r| <= ItemsPerPage
    ensures r != [] <==> page <= TotalPages(|s|)
    ensures page < TotalPages(|s|) ==> |r| == ItemsPerPage
    ensures page == TotalPages(|s|) ==> |r| == |s| - (page - 1) * ItemsPerPage
  {
    Slice(s, (page - 1) * ItemsPerPage, page * ItemsPerPage)
  }

  /** Pages `p` to `last`, concatenated. */
  function PagesFrom<T>(s: seq<T>, p: nat, last: nat): seq<T>
    requires p >= 1
    decreases last + 1 - p
  {
    if p > last then [] else Page(s, p) + PagesFrom(s, p + 1, last)
  }

  lemma {:induction false} PagesFromTail<T>(s: seq<T>, p: nat)
    requires p >= 1
    ensures var from := if (p - 1) * ItemsPerPage < |s| then (p - 1) * ItemsPerPage else |s|;
            PagesFrom(s, p, TotalPages(|s|)) == s[from..]
    decreases TotalPages(|s|) + 1 - p
  {
    var total := TotalPages(|s|);
    if p <= total {
      PagesFromTail(s, p + 1);
      var a := (p - 1) * ItemsPerPage;
      var b := if p * ItemsPerPage < |s| then p * ItemsPerPage else |s|;
      assert Page(s, p) == s[a..b];
      assert s[a..b] + s[b..] == s[a..];
    }
  }

  /** Concatenating pages 1..TotalPages gives back the whole list. */
  lemma PagesConcatenate<T>(s: seq<T>)
    ensures PagesFrom(s, 1, TotalPages(|s|)) == s
  {
    PagesFromTail(s, 1);
  }

  /** The "previous" button: `Math.max(prev - 1, 1)`. */
  function PreviousPage(p: int): (r: int)
    ensures r >= 1
    ensures p > 1 ==> r == p - 1
    ensures p <= 1 ==> r == 1
  {
    if p - 1 > 1 then p - 1 else 1
  }

  /** The "next" button: `Math.min(prev + 1, totalPages)`. */
  function NextPage(p: int, totalPages: int): (r: int)
    ensures r <= totalPages
    ensures p < totalPages ==> r == p + 1
    ensures p >= totalPages ==> r == totalPages
  {
    if p + 1 < totalPages then p + 1 else totalPages
  }

  /** Inside 1..total both buttons keep the page inside, and each undoes the
      other away from the ends. */
  lemma PageButtons(p: int, total: int)
    requires 1 <= p <= total
    ensures 1 <= PreviousPage(p) <= total && 1 <= NextPage(p, total) <= total
    ensures p > 1 ==> NextPage(PreviousPage(p), total) == p
    ensures p < total ==> PreviousPage(NextPage(p, total)) == p
  {
  }

  // ---------------------------------------------------------------------------
  // Tag selection
  // ---------------------------------------------------------------------------

  /** `prev.filter(t => t !== tag)`. */
  function Remove(s: seq<string>, tag: string): (r: seq<string>)
    ensures forall x :: x in r <==> x in s && x != tag
    ensures NoDuplicates(s) ==> NoDuplicates(r)
    decreases |s|
  {
    if s == [] then []
    else
      var rest := Remove(s[1..], tag);
      if s[0] == tag then rest
      else
        assert forall x :: x in s[1..] ==> x in s;
        assert NoDuplicates(s) ==> s[0] !in s[1..];
        [s[0]] + rest
  }

  lemma {:induction false} RemoveConcat(a: seq<string>, b: seq<string>, tag: string)
    ensures Remove(a + b, tag) == Remove(a, tag) + Remove(b, tag)
    decreases |a|
  {
    if a == [] {
      assert a + b == b;
    } else {
      assert (a + b)[0] == a[0];
      assert (a + b)[1..] == a[1..] + b;
      RemoveConcat(a[1..], b, tag);
    }
  }

  lemma {:induction false} RemoveAbsent(s: seq<string>, tag: string)
    requires tag !in s
    ensures Remove(s, tag) == s
    decreases |s|
  {
    if s != [] {
      RemoveAbsent(s[1..], tag);
    }
  }

  /** `handleTagToggle` on the list: drop a selected tag, append an
      unselected one; the list never gains a duplicate. */
  function Toggle(s: seq<string>, tag: string): (r: seq<string>)
    ensures tag in r <==> tag !in s
    ensures forall x :: x != tag ==> (x in r <==> x in s)
    ensures NoDuplicates(s) ==> NoDuplicates(r)
  {
    if tag in s then Remove(s, tag) else s + [tag]
  }

  /** Toggling a tag twice restores which tags are selected, and restores the
      list itself when the tag was not selected. */
  lemma ToggleTwice(s: seq<string>, tag: string)
    ensures forall x :: x in Toggle(Toggle(s, tag), tag) <==> x in s
    ensures tag !in s ==> Toggle(Toggle(s, tag), tag) == s
  {
    if tag !in s {
      RemoveConcat(s, [tag], tag);
      RemoveAbsent(s, tag);
      assert Remove([tag], tag) == [];
    }
  }

  // ---------------------------------------------------------------------------
  // Badges
  // ---------------------------------------------------------------------------

  /** `getTypeColor`: one colour per known type, gray otherwise. */
  function TypeColor(kind: string): (c: string)
    ensures c == "bg-gray-500" <==> kind !in {"feature", "announcement", "maintenance", "release"}
    ensures kind == "feature" ==> c == "bg-blue-500"
    ensures kind == "announcement" ==> c == "bg-green-500"
    ensures kind == "maintenance" ==> c == "bg-yellow-500"
    ensures kind == "release" ==> c == "bg-purple-500"
  {
    match kind
    case "feature" => "bg-blue-500"
    case "announcement" => "bg-green-500"
    case "maintenance" => "bg-yellow-500"
    case "release" => "bg-purple-500"
    case _ => "bg-gray-500"
  }

  // ---------------------------------------------------------------------------
  // Page state
  // ---------------------------------------------------------------------------

  /** The page's state: `searchTerm`, `selectedType`, `currentPage`,
      `selectedTags`. */
  class UpdatesPage {
    var searchTerm: string
    var selectedType: string
    var currentPage: int
    var selectedTags: seq<string>

    ghost predicate Valid()
      reads this
    {
      currentPage >= 1 && NoDuplicates(selectedTags)
    }

    constructor ()
      ensures Valid()
      ensures searchTerm == "" && selectedType == "all" && currentPage == 1 && selectedTags == []
    {
      searchTerm := "";
      selectedType := "all";
      currentPage := 1;
      selectedTags := [];
    }

    function CurrentQuery(): Query
      reads this
    {
      Query(searchTerm, selectedType, selectedTags)
    }

    /** The updates shown: the current page of the filtered list. */
    function Visible(updates: seq<Update>): (r: seq<Update>)
      reads this
      requires Valid()
      ensures |r| <= ItemsPerPage
      ensures forall u :: u in r ==> u in updates && Matches(u, CurrentQuery())
      ensures r == Page(Filtered(updates, CurrentQuery()), currentPage)
    {
      Page(Filtered(updates, CurrentQuery()), currentPage)
    }

    /** Typing in the search box; the current page is left as it is. */
    method SetSearchTerm(term: string)
      requires Valid()
      modifies this`searchTerm
      ensures Valid() && searchTerm == term
    {
      searchTerm := term;
    }

    /** Choosing a type; the current page is left as it is. */
    method SetSelectedType(kind: string)
      requires Valid()
      modifies this`selectedType
      ensures Valid() && selectedType == kind
    {
      selectedType := kind;
    }

    /** `handleTagToggle`: toggle the tag and go back to page 1. */
    method ToggleTag(tag: string)
      requires Valid()
      modifies this`selectedTags, this`currentPage
      ensures Valid()
      ensures selectedTags == Toggle(old(selectedTags), tag) && currentPage == 1
    {
      selectedTags := Toggle(selectedTags, tag);
      currentPage := 1;
    }

    /** The "previous" button. */
    method GoToPreviousPage()
      requires Valid()
      modifies this`currentPage
      ensures Valid() && currentPage == PreviousPage(old(currentPage))
    {
      currentPage := PreviousPage(currentPage);
    }

    /** The "next" button, rendered only when there is more than one page. */
    method GoToNextPage(updates: seq<Update>)
      requires Valid()
      requires TotalPages(|Filtered(updates, CurrentQuery())|) > 1
      modifies this`currentPage
      ensures Valid()
      ensures currentPage == NextPage(old(currentPage), TotalPages(|Filtered(updates, CurrentQuery())|))
    {
      currentPage := NextPage(currentPage, TotalPages(|Filtered(updates, CurrentQuery())|));
    }
  }
}
