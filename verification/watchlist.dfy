/** The watch-lists: `addCompany`/`addKeyword` and `removeCompany`/`removeKeyword` of
    `App.tsx`, and the form of `components/ConfigurationDashboard.tsx` that feeds them.

    Adding is a case-insensitive de-duplicating append; removing deletes every entry exactly
    equal to the value.  The form trims its input and forwards nothing when the input is
    blank.  Persistence to local storage is not modelled.
 */
module Watchlist {
  import opened Basics
  import opened Text

  // ---------------------------------------------------------------------------------------
  // Case-insensitive lookup
  // ---------------------------------------------------------------------------------------

  predicate ContainsIgnoringCase(xs: seq<string>, v: string)
  {
    exists i :: 0 <= i < |xs| && SameIgnoringCase(xs[i], v)
  }

  /** `xs.find(c => c.toLowerCase() === v.toLowerCase())`: the first matching entry. */
  function FindIgnoringCase(xs: seq<string>, v: string): (r: Option<string>)
    ensures r.Some? <==> ContainsIgnoringCase(xs, v)
    ensures r.Some? ==> r.value in xs && SameIgnoringCase(r.value, v)
    decreases |xs|
  {
    if |xs| == 0 then None
    else if SameIgnoringCase(xs[0], v) then Some(xs[0])
    else
      var r := FindIgnoringCase(xs[1..], v);
      assert ContainsIgnoringCase(xs, v) ==> ContainsIgnoringCase(xs[1..], v) by {
        if ContainsIgnoringCase(xs, v) {
          var i :| 0 <= i < |xs| && SameIgnoringCase(xs[i], v);
          assert xs[1..][i - 1] == xs[i];
        }
      }
      assert ContainsIgnoringCase(xs[1..], v) ==> ContainsIgnoringCase(xs, v) by {
        if ContainsIgnoringCase(xs[1..], v) {
          var i :| 0 <= i < |xs[1..]| && SameIgnoringCase(xs[1..][i], v);
          assert xs[i + 1] == xs[1..][i];
        }
      }
      r
  }

  /** No two entries are equal ignoring case. */
  predicate NoCaseDuplicates(xs: seq<string>)
  {
    forall i, j :: 0 <= i < j < |xs| ==> !SameIgnoringCase(xs[i], xs[j])
  }

  // ---------------------------------------------------------------------------------------
  // Add
  // ---------------------------------------------------------------------------------------

  /** `!list.find(...) && setList(prev => [...prev, v])` exactly as written: the guard tests
      the found entry for truthiness, so a found empty string does not stop the append. */
  function AddAsWritten(xs: seq<string>, v: string): (r: seq<string>)
    ensures r == xs || r == xs + [v]
    ensures !ContainsIgnoringCase(xs, v) ==> r == xs + [v]
  {
    match FindIgnoringCase(xs, v)
    case None => xs + [v]
    case Some(found) => if found == "" then xs + [v] else xs
  }

  /** With an empty entry already present, adding another empty string duplicates it. */
  lemma AddAsWrittenDuplicatesEmpty()
    ensures NoCaseDuplicates([""])
    ensures AddAsWritten([""], "") == ["", ""]
    ensures !NoCaseDuplicates(AddAsWritten([""], ""))
  {
    assert SameIgnoringCase("", "");
    assert FindIgnoringCase([""], "") == Some("");
    var r := AddAsWritten([""], "");
    assert SameIgnoringCase(r[0], r[1]);
  }

  /** The add the guard evidently intends: append exactly when no entry matches ignoring case. */
  function AddToWatchlist(xs: seq<string>, v: string): (r: seq<string>)
    ensures ContainsIgnoringCase(xs, v) ==> r == xs
    ensures !ContainsIgnoringCase(xs, v) ==> r == xs + [v]
    ensures ContainsIgnoringCase(r, v)
  {
    match FindIgnoringCase(xs, v)
    case None =>
      assert SameIgnoringCase((xs + [v])[|xs|], v);
      xs + [v]
    case Some(_) => xs
  }

  /** The two adds differ only on the empty string, which the form never forwards. */
  lemma AddAsWrittenAgrees(xs: seq<string>, v: string)
    requires v != ""
    ensures AddAsWritten(xs, v) == AddToWatchlist(xs, v)
  {
    match FindIgnoringCase(xs, v)
    case None =>
    case Some(found) =>
      assert |Lower(found)| == |Lower(v)|;
  }

  lemma AddPreservesNoCaseDuplicates(xs: seq<string>, v: string)
    requires NoCaseDuplicates(xs)
    ensures NoCaseDuplicates(AddToWatchlist(xs, v))
  {
    var r := AddToWatchlist(xs, v);
    if !ContainsIgnoringCase(xs, v) {
      forall i, j | 0 <= i < j < |r|
        ensures !SameIgnoringCase(r[i], r[j])
      {
        if j == |xs| {
          assert r[j] == v;
        }
      }
    }
  }

  lemma AddIdempotent(xs: seq<string>, v: string)
    ensures AddToWatchlist(AddToWatchlist(xs, v), v) == AddToWatchlist(xs, v)
  {
  }

  // ---------------------------------------------------------------------------------------
  // Remove
  // ---------------------------------------------------------------------------------------

  /** `xs.filter(c => c !== v)`: every exactly-equal entry goes, the rest keep their order. */
  function RemoveFromWatchlist(xs: seq<string>, v: string): (r: seq<string>)
    ensures multiset(r) == multiset(xs)[v := 0]
    ensures |r| == |xs| - multiset(xs)[v]
    ensures v !in r
    ensures forall x :: x in r ==> x in xs
    decreases |xs|
  {
    if |xs| == 0 then []
    else
      assert xs == [xs[0]] + xs[1..];
      (if xs[0] == v then [] else [xs[0]]) + RemoveFromWatchlist(xs[1..], v)
  }

  lemma {:induction false} RemoveAppend(a: seq<string>, b: seq<string>, v: string)
    ensures RemoveFromWatchlist(a + b, v) == RemoveFromWatchlist(a, v) + RemoveFromWatchlist(b, v)
    decreases |a|
  {
    if |a| == 0 {
      assert a + b == b;
    } else {
      assert (a + b)[0] == a[0];
      assert (a + b)[1..] == a[1..] + b;
      RemoveAppend(a[1..], b, v);
    }
  }

  lemma {:induction false} RemoveAbsent(xs: seq<string>, v: string)
    requires v !in xs
    ensures RemoveFromWatchlist(xs, v) == xs
    decreases |xs|
  {
    if |xs| > 0 {
      assert xs[0] in xs;
      assert forall x :: x in xs[1..] ==> x in xs;
      RemoveAbsent(xs[1..], v);
      assert xs == [xs[0]] + xs[1..];
    }
  }

  /** Removing a value that was just added, when nothing matched it before, restores the list. */
  lemma RemoveUndoesAdd(xs: seq<string>, v: string)
    requires !ContainsIgnoringCase(xs, v)
    ensures RemoveFromWatchlist(AddToWatchlist(xs, v), v) == xs
  {
    RemoveAppend(xs, [v], v);
    RemoveAbsent(xs, v);
    assert RemoveFromWatchlist([v], v) == [];
  }

  lemma {:induction false} CountInNoDuplicates(xs: seq<string>, v: string)
    requires NoCaseDuplicates(xs)
    ensures multiset(xs)[v] <= 1
    decreases |xs|
  {
    if |xs| > 0 {
      assert xs == [xs[0]] + xs[1..];
      CountInNoDuplicates(xs[1..], v);
      if xs[0] == v && v in xs[1..] {
        var j :| 0 <= j < |xs[1..]| && xs[1..][j] == v;
        assert xs[j + 1] == v;
        assert SameIgnoringCase(xs[0], xs[j + 1]);
      }
    }
  }

  /** On a list without case-insensitive duplicates a present value occurs once, so removing
      it shortens the list by exactly one. */
  lemma RemoveUniqueEntry(xs: seq<string>, v: string)
    requires NoCaseDuplicates(xs) && v in xs
    ensures |RemoveFromWatchlist(xs, v)| == |xs| - 1
  {
    CountInNoDuplicates(xs, v);
  }

  lemma {:induction false} RemovePreservesNoCaseDuplicates(xs: seq<string>, v: string)
    requires NoCaseDuplicates(xs)
    ensures NoCaseDuplicates(RemoveFromWatchlist(xs, v))
    decreases |xs|
  {
    if |xs| > 0 {
      var rest := RemoveFromWatchlist(xs[1..], v);
      RemovePreservesNoCaseDuplicates(xs[1..], v);
      if xs[0] != v {
        var r := [xs[0]] + rest;
        forall i, j | 0 <= i < j < |r|
          ensures !SameIgnoringCase(r[i], r[j])
        {
          if i == 0 {
            assert r[j] in rest;
            var k :| 0 <= k < |xs[1..]| && xs[1..][k] == r[j];
            assert xs[k + 1] == r[j];
          } else {
            assert r[i] == rest[i - 1] && r[j] == rest[j - 1];
          }
        }
      }
    }
  }

  // ---------------------------------------------------------------------------------------
  // The configuration form
  // ---------------------------------------------------------------------------------------

  /** What one press of "Add" does: the value forwarded to `onAdd`, if any, and the input
      field afterwards. */
  datatype AddOutcome = AddOutcome(forwarded: Option<string>, input: string)

  /** `ListManager.handleAdd`. */
  function HandleAdd(input: string): (r: AddOutcome)
    ensures r.forwarded.Some? <==> !AllWhitespace(input)
    ensures r.forwarded.Some? ==>
      r.forwarded.value == Trim(input) && r.forwarded.value != "" && Trimmed(r.forwarded.value) && r.input == ""
    ensures r.forwarded.None? ==> r.input == input
  {
    if Trim(input) != "" then AddOutcome(Some(Trim(input)), "") else AddOutcome(None, input)
  }

  /** Every entry non-empty and trimmed, and no case-insensitive duplicates: the shape the form
      and the add handler together maintain. */
  predicate WellFormed(xs: seq<string>)
  {
    && NoCaseDuplicates(xs)
    && forall i :: 0 <= i < |xs| ==> xs[i] != "" && Trimmed(xs[i])
  }

  /** One submission of the form followed by the add handler. */
  function SubmitAdd(xs: seq<string>, input: string): (r: (seq<string>, string))
  {
    var outcome := HandleAdd(input);
    match outcome.forwarded
    case None => (xs, outcome.input)
    case Some(v) => (AddToWatchlist(xs, v), outcome.input)
  }

  /** Submissions through the form keep the list well formed, and blank input changes nothing. */
  lemma SubmitAddPreservesWellFormed(xs: seq<string>, input: string)
    requires WellFormed(xs)
    ensures WellFormed(SubmitAdd(xs, input).0)
    ensures AllWhitespace(input) ==> SubmitAdd(xs, input) == (xs, input)
    ensures !AllWhitespace(input) ==> SubmitAdd(xs, input).1 == ""
  {
    var outcome := HandleAdd(input);
    if outcome.forwarded.Some? {
      AddPreservesWellFormed(xs, outcome.forwarded.value);
    }
  }

  /** Adding a non-empty trimmed value keeps the list well formed. */
  lemma AddPreservesWellFormed(xs: seq<string>, v: string)
    requires WellFormed(xs) && v != "" && Trimmed(v)
    ensures WellFormed(AddToWatchlist(xs, v))
  {
    AddPreservesNoCaseDuplicates(xs, v);
    var r := AddToWatchlist(xs, v);
    forall i | 0 <= i < |r|
      ensures r[i] != "" && Trimmed(r[i])
    {
      if i < |xs| {
        assert r[i] == xs[i];
      }
    }
  }

  /** The remove button beside entry `i` forwards that entry. */
  function ClickRemove(xs: seq<string>, i: nat): (r: seq<string>)
    requires i < |xs|
    ensures xs[i] !in r
    ensures |r| < |xs|
    ensures multiset(r) == multiset(xs)[xs[i] := 0]
  {
    assert xs[i] in multiset(xs);
    RemoveFromWatchlist(xs, xs[i])
  }

  lemma RemovePreservesWellFormed(xs: seq<string>, v: string)
    requires WellFormed(xs)
    ensures WellFormed(RemoveFromWatchlist(xs, v))
  {
    RemovePreservesNoCaseDuplicates(xs, v);
    var r := RemoveFromWatchlist(xs, v);
    forall i | 0 <= i < |r|
      ensures r[i] != "" && Trimmed(r[i])
    {
      assert r[i] in xs;
    }
  }

  // ---------------------------------------------------------------------------------------
  // The two lists
  // ---------------------------------------------------------------------------------------

  datatype ListKind = Companies | Keywords

  datatype WatchlistConfig = WatchlistConfig(companies: seq<string>, keywords: seq<string>)

  function Get(c: WatchlistConfig, kind: ListKind): seq<string>
  {
    match kind
    case Companies => c.companies
    case Keywords => c.keywords
  }

  /** `addCompany` / `addKeyword`: the other list is untouched. */
  function Add(c: WatchlistConfig, kind: ListKind, v: string): (r: WatchlistConfig)
    ensures Get(r, kind) == AddToWatchlist(Get(c, kind), v)
    ensures kind == Companies ==> r.keywords == c.keywords
    ensures kind == Keywords ==> r.companies == c.companies
  {
    match kind
    case Companies => c.(companies := AddToWatchlist(c.companies, v))
    case Keywords => c.(keywords := AddToWatchlist(c.keywords, v))
  }

  /** `removeCompany` / `removeKeyword`: the other list is untouched. */
  function Remove(c: WatchlistConfig, kind: ListKind, v: string): (r: WatchlistConfig)
    ensures Get(r, kind) == RemoveFromWatchlist(Get(c, kind), v)
    ensures kind == Companies ==> r.keywords == c.keywords
    ensures kind == Keywords ==> r.companies == c.companies
  {
    match kind
    case Companies => c.(companies := RemoveFromWatchlist(c.companies, v))
    case Keywords => c.(keywords := RemoveFromWatchlist(c.keywords, v))
  }
}
