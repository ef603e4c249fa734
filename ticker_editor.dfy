/** The watchlist editor: the sanitised ticker input, adding a ticker once and
    removing one. */
module TickerEditor {
  import opened Wrappers
  import opened Text

  /** Longest text the input holds. */
  const MaxInput := 10

  /** The characters the input accepts: ASCII letters, '.', '^' and '-'. */
  predicate IsTickerChar(c: char) {
    ('a' <= c <= 'z') || ('A' <= c <= 'Z') || c == '.' || c == '^' || c == '-'
  }

  /** The input's `onChange`: every other character removed, then the first 10 kept.
      `Filter` keeps each accepted character as often as it occurs, in order. */
  function Sanitise(s: string): (r: string)
    ensures |r| <= MaxInput
    ensures forall k :: 0 <= k < |r| ==> IsTickerChar(r[k])
    ensures IsSubsequence(r, s)
    ensures |r| == if |Filter(s, IsTickerChar)| <= MaxInput then |Filter(s, IsTickerChar)| else MaxInput
    ensures r == Filter(s, IsTickerChar)[..|r|]
  {
    var kept := Filter(s, IsTickerChar);
    FilterKeepsOrder(s, IsTickerChar);
    PrefixSubsequence(kept, s, if |kept| <= MaxInput then |kept| else MaxInput);
    if |kept| <= MaxInput then kept else kept[..MaxInput]
  }

  lemma {:induction false} PrefixSubsequence<T>(a: seq<T>, b: seq<T>, n: nat)
    requires n <= |a| && IsSubsequence(a, b)
    ensures IsSubsequence(a[..n], b)
    decreases |b|
  {
    if n > 0 && b != [] {
      if a[0] == b[0] {
        PrefixSubsequence(a[1..], b[1..], n - 1);
        assert a[..n][1..] == a[1..][..n - 1];
      } else {
        PrefixSubsequence(a, b[1..], n);
        SubsequenceOfTail(a[..n], b);
      }
    }
  }

  lemma {:induction false} FilterAllKept(s: string)
    requires forall k :: 0 <= k < |s| ==> IsTickerChar(s[k])
    ensures Filter(s, IsTickerChar) == s
  {
    if s != [] {
      FilterAllKept(s[1..]);
      assert s == [s[0]] + s[1..];
    }
  }

  /** Text already made of accepted characters and at most 10 long passes unchanged... */
  lemma SanitiseKeepsClean(s: string)
    requires |s| <= MaxInput && forall k :: 0 <= k < |s| ==> IsTickerChar(s[k])
    ensures Sanitise(s) == s
  {
    FilterAllKept(s);
  }

  /** ... so sanitising twice is sanitising once. */
  lemma SanitiseIdempotent(s: string)
    ensures Sanitise(Sanitise(s)) == Sanitise(s)
  {
    SanitiseKeepsClean(Sanitise(s));
  }

  /** No ticker appears twice. */
  predicate Distinct(s: seq<string>) {
    forall i, j :: 0 <= i < j < |s| ==> s[i] != s[j]
  }

  /** The ticker that `addTicker` reads from the input. */
  function Normalise(input: string): string {
    ToUpper(Trim(input))
  }

  /** What one `addTicker` does: the list handed to `onUpdate`, if any, the new
      input text, whether the input shakes and the ticker flashed as just added. */
  datatype AddOutcome = AddOutcome(update: Option<seq<string>>, input: string, shake: bool, justAdded: Option<string>)

  function AddTicker(tickers: seq<string>, input: string): (r: AddOutcome)
    ensures Normalise(input) == "" ==> r == AddOutcome(None, input, false, None)
    ensures Normalise(input) != "" && Normalise(input) in tickers ==> r == AddOutcome(None, "", true, None)
    ensures Normalise(input) != "" && Normalise(input) !in tickers ==>
      && r.update.Some? && r.input == "" && !r.shake && r.justAdded == Some(Normalise(input))
      && |r.update.value| == |tickers| + 1
      && r.update.value[..|tickers|] == tickers
      && r.update.value[|tickers|] == Normalise(input)
  {
    var ticker := Normalise(input);
    if ticker == "" then AddOutcome(None, input, false, None)
    else if ticker in tickers then AddOutcome(None, "", true, None)
    else AddOutcome(Some(tickers + [ticker]), "", false, Some(ticker))
  }

  /** Adding keeps the list free of duplicates, and what it adds is upper case
      and trimmed. */
  lemma AddKeepsDistinct(tickers: seq<string>, input: string)
    requires Distinct(tickers)
    ensures AddTicker(tickers, input).update.Some? ==> Distinct(AddTicker(tickers, input).update.value)
    ensures AddTicker(tickers, input).update.Some? ==>
      var t := AddTicker(tickers, input).update.value[|tickers|];
      t != "" && ToUpper(t) == t
  {
    ToUpperIdempotent(Trim(input));
  }

  /** An update happens exactly when the normalised input is new and not empty. */
  lemma AddUpdatesIff(tickers: seq<string>, input: string)
    ensures AddTicker(tickers, input).update.Some? <==> Normalise(input) != "" && Normalise(input) !in tickers
  {
  }

  /** Adding the same text again changes nothing. */
  lemma AddTwice(tickers: seq<string>, input: string)
    requires AddTicker(tickers, input).update.Some?
    ensures AddTicker(AddTicker(tickers, input).update.value, input).update.None?
  {
  }

  /** Input coming from the sanitised box is already trimmed, so the ticker added
      is its upper-case form, at most 10 characters long. */
  lemma SanitisedInputAdds(tickers: seq<string>, raw: string)
    ensures Normalise(Sanitise(raw)) == ToUpper(Sanitise(raw))
    ensures |Normalise(Sanitise(raw))| <= MaxInput
  {
    var s := Sanitise(raw);
    assert forall k :: 0 <= k < |s| ==> !IsSpace(s[k]);
    TrimOfSpaceFree(s);
  }

  /** `removeTicker`: the list without any copy of `symbol`. */
  function RemoveTicker(tickers: seq<string>, symbol: string): (r: seq<string>)
    ensures symbol !in r
    ensures forall t :: t != symbol ==> (t in r <==> t in tickers)
    ensures IsSubsequence(r, tickers)
    ensures forall t :: t != symbol ==> multiset(r)[t] == multiset(tickers)[t]
  {
    RemoveAllKeepsOrder(tickers, symbol);
    RemoveAll(tickers, symbol)
  }

  lemma {:induction false} RemoveAllDistinct(tickers: seq<string>, symbol: string)
    requires Distinct(tickers)
    ensures Distinct(RemoveAll(tickers, symbol))
  {
    if tickers != [] {
      var rest := tickers[1..];
      assert Distinct(rest) by {
        forall i, j | 0 <= i < j < |rest| ensures rest[i] != rest[j] {
          assert rest[i] == tickers[i + 1] && rest[j] == tickers[j + 1];
        }
      }
      RemoveAllDistinct(rest, symbol);
      assert tickers[0] !in rest by {
        forall k | 0 <= k < |rest| ensures rest[k] != tickers[0] {
          assert rest[k] == tickers[k + 1];
        }
      }
      var r := RemoveAll(rest, symbol);
      if tickers[0] != symbol {
        assert RemoveAll(tickers, symbol) == [tickers[0]] + r;
        assert tickers[0] !in r;
      }
    }
  }

  /** Removing keeps the list free of duplicates. */
  lemma RemoveKeepsDistinct(tickers: seq<string>, symbol: string)
    requires Distinct(tickers)
    ensures Distinct(RemoveTicker(tickers, symbol))
  {
    RemoveAllDistinct(tickers, symbol);
  }

  /** Removing a ticker just added gives back the list before. */
  lemma {:induction false} RemoveUndoesAdd(tickers: seq<string>, t: string)
    requires t !in tickers
    ensures RemoveTicker(tickers + [t], t) == tickers
  {
    if tickers != [] {
      RemoveUndoesAdd(tickers[1..], t);
      assert (tickers + [t])[1..] == tickers[1..] + [t];
      assert tickers == [tickers[0]] + tickers[1..];
    } else {
      assert [t][1..] == [];
    }
  }

  /** Removing a ticker that is not listed changes nothing. */
  lemma {:induction false} RemoveAbsent(tickers: seq<string>, symbol: string)
    requires symbol !in tickers
    ensures RemoveTicker(tickers, symbol) == tickers
  {
    if tickers != [] {
      RemoveAbsent(tickers[1..], symbol);
      assert tickers == [tickers[0]] + tickers[1..];
    }
  }

  /** The editor panel's own state. */
  datatype Editor = Editor(isOpen: bool, input: string, shake: bool, justAdded: Option<string>)

  datatype Key = Enter | Escape | Other

  /** `handleKeyDown`: Enter adds the input as a ticker, Escape closes the panel.
      Returns the new editor and the list handed to `onUpdate`, if any. */
  function KeyDown(e: Editor, tickers: seq<string>, key: Key): (r: (Editor, Option<seq<string>>))
    ensures key == Escape ==> r.0 == e.(isOpen := false) && r.1.None?
    ensures key == Other ==> r == (e, None)
    ensures key == Enter ==> r.0.isOpen == e.isOpen && r.1 == AddTicker(tickers, e.input).update
    ensures key == Enter ==> r.0.input == AddTicker(tickers, e.input).input
    ensures key == Enter ==> r.0.shake == (e.shake || AddTicker(tickers, e.input).shake)
    ensures key == Enter ==> var a := AddTicker(tickers, e.input);
      r.0.justAdded == if a.justAdded.Some? then a.justAdded else e.justAdded
  {
    match key
    case Enter =>
      var a := AddTicker(tickers, e.input);
      (e.(input := a.input,
          shake := e.shake || a.shake,
          justAdded := if a.justAdded.Some? then a.justAdded else e.justAdded), a.update)
    case Escape => (e.(isOpen := false), None)
    case Other => (e, None)
  }
}
