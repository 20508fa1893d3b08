/** The punctuation-repair rule that joins a finalised transcript fragment
    onto the text accumulated so far in a transcription session. */
module Punctuation {

  /** .NET's char.IsWhiteSpace: the space separators (Unicode category Zs),
      the line and paragraph separators, and the control characters
      TAB, LF, VT, FF, CR and NEL. */
  predicate IsWhiteSpace(c: char) {
    c == ' ' || c == '\U{00A0}' || c == '\U{1680}' ||
    ('\U{2000}' <= c <= '\U{200A}') ||
    c == '\U{202F}' || c == '\U{205F}' || c == '\U{3000}' ||
    c == '\U{2028}' || c == '\U{2029}' ||
    ('\t' <= c <= '\r') || c == '\U{0085}'
  }

  /** string.IsNullOrWhiteSpace for a non-null string: empty, or whitespace only. */
  predicate IsNullOrWhiteSpace(s: string) {
    forall i | 0 <= i < |s| :: IsWhiteSpace(s[i])
  }

  /** The characters that count as the end of a sentence. */
  const TerminalPunctuation: set<char> := {'.', '!', '?'}

  /** Whether the last character of a non-empty message ends a sentence. */
  predicate EndsWithPunctuation(message: string)
    requires |message| > 0
    ensures EndsWithPunctuation(message) <==> message[|message| - 1] in TerminalPunctuation
  {
    var value := message[|message| - 1];
    value == '?' || value == '!' || value == '.'
  }

  /** What goes between the accumulated text and the next fragment. The
      guard keeps EndsWithPunctuation away from the empty string. */
  function Separator(acc: string, fragment: string): string {
    if !IsNullOrWhiteSpace(acc) && !IsNullOrWhiteSpace(fragment) then
      if EndsWithPunctuation(acc) then " " else ". "
    else
      ""
  }

  /** The accumulated text after `fragment` is finalised. */
  function Merge(acc: string, fragment: string): string {
    acc + Separator(acc, fragment) + fragment
  }

  /** Merging never loses text: what was accumulated is a prefix of the
      result, the fragment is kept verbatim at its end, and at most two
      characters are inserted between them. */
  lemma MergeKeepsText(acc: string, fragment: string)
    ensures var merged := Merge(acc, fragment);
      |acc| + |fragment| <= |merged| <= |acc| + |fragment| + 2 &&
      acc <= merged && merged[|merged| - |fragment|..] == fragment
  {
    var joined := acc + Separator(acc, fragment);
    assert Merge(acc, fragment)[|joined|..] == fragment;
  }

  /** When either side is empty or whitespace only, the two are concatenated. */
  lemma MergeWithBlank(acc: string, fragment: string)
    requires IsNullOrWhiteSpace(acc) || IsNullOrWhiteSpace(fragment)
    ensures Merge(acc, fragment) == acc + fragment
  {
  }

  /** When both sides hold text, the fragment always starts a new sentence:
      it is preceded by a space, which is preceded by a terminal punctuation
      mark. After a closing '.', '!' or '?' only the space is inserted;
      after any other character exactly ". " is. */
  lemma MergeJoinsSentences(acc: string, fragment: string)
    requires !IsNullOrWhiteSpace(acc) && !IsNullOrWhiteSpace(fragment)
    ensures var merged, k := Merge(acc, fragment), |Merge(acc, fragment)| - |fragment|;
      k >= 2 && merged[k - 1] == ' ' && merged[k - 2] in TerminalPunctuation &&
      (if acc[|acc| - 1] in TerminalPunctuation then k == |acc| + 1
       else k == |acc| + 2 && merged[|acc|] == '.')
  {
    var sep := Separator(acc, fragment);
    var merged := Merge(acc, fragment);
    if EndsWithPunctuation(acc) {
      assert merged[|acc| - 1] == acc[|acc| - 1];
    }
  }

  /** A fragment after text with no closing mark gets a full stop and a space. */
  lemma MergeInsertsFullStop()
    ensures Merge("Hello", "world") == "Hello. world"
  {
    assert !IsWhiteSpace("world"[0]) && !IsWhiteSpace("Hello"[0]);
    assert Separator("Hello", "world") == ". ";
  }

  /** A fragment after a closing '.' or '!' only gets a space. */
  lemma MergeKeepsPunctuation()
    ensures Merge("Hello.", "World") == "Hello. World"
    ensures Merge("Hello!", "World") == "Hello! World"
  {
    assert !IsWhiteSpace("World"[0]) && !IsWhiteSpace("Hello."[0]) && !IsWhiteSpace("Hello!"[0]);
    assert Separator("Hello.", "World") == " ";
    assert Separator("Hello!", "World") == " ";
  }

  /** An empty or blank side is concatenated as it is. */
  lemma MergeBlankExamples()
    ensures Merge("", "World") == "World"
    ensures Merge("Hello", "") == "Hello"
    ensures Merge("  ", "World") == "  World"
  {
    MergeWithBlank("", "World");
    MergeWithBlank("Hello", "");
    assert IsWhiteSpace("  "[0]) && IsWhiteSpace("  "[1]);
    MergeWithBlank("  ", "World");
  }

  /** The text a session has accumulated from its finalised fragments, in
      the order they were finalised. */
  function Accumulate(fragments: seq<string>): string {
    if fragments == [] then ""
    else Merge(Accumulate(fragments[..|fragments| - 1]), fragments[|fragments| - 1])
  }

  /** Finalising one more fragment merges it onto what was accumulated. */
  lemma AccumulateAppend(fragments: seq<string>, fragment: string)
    ensures Accumulate(fragments + [fragment]) == Merge(Accumulate(fragments), fragment)
  {
    assert (fragments + [fragment])[..|fragments|] == fragments;
  }

  /** Later fragments only extend the text: what was accumulated after the
      first fragments is a prefix of what is accumulated after more. */
  lemma {:induction false} AccumulatePrefix(fragments: seq<string>, more: seq<string>)
    ensures Accumulate(fragments) <= Accumulate(fragments + more)
  {
    if more == [] {
      assert fragments + more == fragments;
    } else {
      var init := more[..|more| - 1];
      AccumulatePrefix(fragments, init);
      assert fragments + more == (fragments + init) + [more[|more| - 1]];
      AccumulateAppend(fragments + init, more[|more| - 1]);
      MergeKeepsText(Accumulate(fragments + init), more[|more| - 1]);
    }
  }

  /** `piece` occurs verbatim in `text`, starting at index `p`. */
  predicate OccursAt(text: string, piece: string, p: int) {
    0 <= p <= |text| - |piece| && text[p..p + |piece|] == piece
  }

  /** Text accumulated up to a fragment is a prefix of the whole. */
  lemma AccumulateUpToPrefix(fragments: seq<string>, k: nat)
    requires k < |fragments|
    ensures Accumulate(fragments[..k + 1]) <= Accumulate(fragments)
  {
    assert fragments == fragments[..k + 1] + fragments[k + 1..];
    AccumulatePrefix(fragments[..k + 1], fragments[k + 1..]);
  }

  /** Text accumulated up to a fragment is that fragment merged onto the text before it. */
  lemma AccumulateUpTo(fragments: seq<string>, k: nat)
    requires k < |fragments|
    ensures Accumulate(fragments[..k + 1]) == Merge(Accumulate(fragments[..k]), fragments[k])
  {
    assert fragments[..k + 1] == fragments[..k] + [fragments[k]];
    AccumulateAppend(fragments[..k], fragments[k]);
  }

  /** The end of a prefix of `text` occurs in `text` at the same place. */
  lemma SuffixOfPrefixOccurs(prefix: string, text: string, piece: string)
    requires |piece| <= |prefix| && prefix <= text && prefix[|prefix| - |piece|..] == piece
    ensures OccursAt(text, piece, |prefix| - |piece|)
  {
    assert text[..|prefix|] == prefix;
    assert text[|prefix| - |piece|..|prefix|] == prefix[|prefix| - |piece|..];
  }

  /** No fragment is ever lost: each finalised fragment occurs verbatim in
      the accumulated text. */
  lemma KeepsEveryFragment(fragments: seq<string>, k: nat)
    requires k < |fragments|
    ensures exists p :: OccursAt(Accumulate(fragments), fragments[k], p)
  {
    AccumulateUpToPrefix(fragments, k);
    AccumulateUpTo(fragments, k);
    MergeKeepsText(Accumulate(fragments[..k]), fragments[k]);
    SuffixOfPrefixOccurs(Accumulate(fragments[..k + 1]), Accumulate(fragments), fragments[k]);
  }
}
