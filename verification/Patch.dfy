/** The unique-block edit of `Patch` (internal/fsapi/patch.go) on the text of a file. */
module Patch {
  import opened Sequences
  import opened Substrings

  datatype Outcome<T> = Edited(text: seq<T>) | NoMatch | Ambiguous

  /** What `Patch` makes of a text; an empty `old` overwrites everything. */
  function Edit<T(==)>(text: seq<T>, oldText: seq<T>, newText: seq<T>): Outcome<T> {
    if oldText == [] then Edited(newText)
    else
      var n := Count(text, oldText);
      if n == 0 then NoMatch
      else if n == 1 then Edited(Replace(text, oldText, newText, 1))
      else Ambiguous
  }

  method Apply<T(==)>(text: seq<T>, oldText: seq<T>, newText: seq<T>) returns (r: Outcome<T>)
    ensures r == Edit(text, oldText, newText)
  {
    if oldText == [] {
      return Edited(newText);
    }
    var n := CountOf(text, oldText);
    if n == 0 {
      return NoMatch;
    }
    if n > 1 {
      return Ambiguous;
    }
    var updated := ReplaceIn(text, oldText, newText, 1);
    r := Edited(updated);
  }

  ghost predicate OnlyAt<T>(s: seq<T>, p: seq<T>, i: nat) {
    At(s, p, i) && forall j :: At(s, p, j) ==> j == i
  }

  ghost predicate AllOverlap<T>(s: seq<T>, p: seq<T>) {
    forall i: nat, j: nat :: At(s, p, i) && At(s, p, j) && i <= j ==> j - i < |p|
  }

  /**
   When an edit happens: the block must occur, and "unique" means that all its occurrences overlap one another; two
   that do not make it ambiguous. The leftmost one is replaced and everything around it is kept.
   */
  lemma EditOutcome<T>(text: seq<T>, oldText: seq<T>, newText: seq<T>)
    requires oldText != []
    ensures Edit(text, oldText, newText) == NoMatch <==> forall i :: !At(text, oldText, i)
    ensures Edit(text, oldText, newText) == Ambiguous <==> exists i: nat, j: nat :: Apart(text, oldText, i, j)
    ensures Edit(text, oldText, newText).Edited? <==> (exists i :: At(text, oldText, i)) && AllOverlap(text, oldText)
    ensures Edit(text, oldText, newText).Edited? ==>
              exists i: nat ::
                && At(text, oldText, i) && (forall j :: 0 <= j < i ==> !At(text, oldText, j))
                && Edit(text, oldText, newText).text == text[..i] + newText + text[i + |oldText|..]
  {
    CountMeaning(text, oldText);
    if !AllOverlap(text, oldText) {
      var i: nat, j: nat :| At(text, oldText, i) && At(text, oldText, j) && i <= j && j - i >= |oldText|;
      assert Apart(text, oldText, i, j);
    }
    if i: nat, j: nat :| Apart(text, oldText, i, j) {
      assert At(text, oldText, i) && At(text, oldText, j);
    }
    if First(text, oldText).Some? {
      ReplaceOnce(text, oldText, newText);
    }
  }

  lemma ReplaceOnce<T>(text: seq<T>, oldText: seq<T>, newText: seq<T>)
    requires oldText != [] && First(text, oldText).Some?
    ensures var i := First(text, oldText).value;
            Replace(text, oldText, newText, 1) == text[..i] + newText + text[i + |oldText|..]
  {
    var rest := text[First(text, oldText).value + |oldText|..];
    assert Replace(rest, oldText, newText, 0) == rest;
  }

  // When "unique" is strict

  /** A proper prefix of the block is also its suffix. */
  ghost predicate HasBorder<T>(p: seq<T>) {
    exists b :: 0 < b < |p| && p[..b] == p[|p| - b..]
  }

  lemma OverlapIsBorder<T>(s: seq<T>, p: seq<T>, i: nat, j: nat)
    requires At(s, p, i) && At(s, p, j) && i < j < i + |p|
    ensures HasBorder(p)
  {
    var b := i + |p| - j;
    assert p[..b] == s[j..i + |p|] by { assert s[j..j + |p|][..b] == s[j..i + |p|]; }
    assert p[|p| - b..] == s[j..i + |p|] by { assert s[i..i + |p|][|p| - b..] == s[j..i + |p|]; }
  }

  /** A block without border is edited exactly when it occurs at one position and no other. */
  lemma UnborderedIsStrict<T>(text: seq<T>, oldText: seq<T>, newText: seq<T>)
    requires oldText != [] && !HasBorder(oldText)
    ensures Edit(text, oldText, newText).Edited? <==> exists i :: OnlyAt(text, oldText, i)
  {
    EditOutcome(text, oldText, newText);
    if Edit(text, oldText, newText).Edited? {
      var i :| At(text, oldText, i);
      forall j | At(text, oldText, j)
        ensures j == i
      {
        if i < j { OverlapIsBorder(text, oldText, i, j); }
        if j < i { OverlapIsBorder(text, oldText, j, i); }
      }
      assert OnlyAt(text, oldText, i);
    }
    if i: nat :| OnlyAt(text, oldText, i) {
      assert At(text, oldText, i);
    }
  }

  /** And that is all: for every block with a border there is a text where it is edited though it occurs twice. */
  lemma BorderedIsLax<T>(oldText: seq<T>, newText: seq<T>) returns (text: seq<T>, i: nat, j: nat)
    requires HasBorder(oldText)
    ensures At(text, oldText, i) && At(text, oldText, j) && i < j
    ensures Edit(text, oldText, newText).Edited?
  {
    var b :| 0 < b < |oldText| && oldText[..b] == oldText[|oldText| - b..];
    text := oldText + oldText[b..];
    i, j := 0, |oldText| - b;
    assert text[..|oldText|] == oldText;
    assert text[j..j + |oldText|] == oldText[|oldText| - b..] + oldText[b..] == oldText[..b] + oldText[b..] == oldText;
    assert At(text, oldText, 0) && At(text, oldText, j);
    assert AllOverlap(text, oldText);
    EditOutcome(text, oldText, newText);
  }

  // Undo

  /**
   Undoing an edit of `text` at `i` into `u`, exactly: swapping the blocks restores the text if and only if the new
   block is unambiguous in `u` and its leftmost occurrence `j`, at or before `i`, agrees with it on the stretch between.
   (The new block always occurs in `u`, so there is such a `j`: see NewBlockOccurs.)
   */
  lemma UndoExactly<T>(text: seq<T>, oldText: seq<T>, newText: seq<T>, u: seq<T>, i: nat, j: nat)
    requires oldText != [] && newText != [] && Edit(text, oldText, newText) == Edited(u)
    requires First(text, oldText) == Some(i) && First(u, newText) == Some(j)
    ensures At(u, newText, i) && j <= i
    ensures Edit(u, newText, oldText) == Edited(text) <==>
              Count(u, newText) == 1 && u[j..i] + oldText == oldText + u[j + |newText|..i + |newText|]
  {
    EditedText(text, oldText, newText);
    NewBlockOccurs(u, text[..i], newText, text[i + |oldText|..]);
    EditIs(u, newText, oldText, text);
    SwapBack(text, u, oldText, newText, i, j);
  }

  lemma EditedText<T>(text: seq<T>, oldText: seq<T>, newText: seq<T>)
    requires oldText != [] && Edit(text, oldText, newText).Edited?
    ensures First(text, oldText).Some?
    ensures var i := First(text, oldText).value;
            Edit(text, oldText, newText).text == text[..i] + newText + text[i + |oldText|..]
  {
    CountMeaning(text, oldText);
    ReplaceOnce(text, oldText, newText);
  }

  lemma NewBlockOccurs<T>(u: seq<T>, front: seq<T>, p: seq<T>, back: seq<T>)
    requires u == front + p + back
    ensures At(u, p, |front|) && First(u, p).Some? && First(u, p).value <= |front|
  {
    assert u[|front|..|front| + |p|] == p;
    var first := First(u, p);
    assert At(u, p, |front|);
  }

  /** When an edit of a text in which the block occurs yields a given result. */
  lemma EditIs<T>(text: seq<T>, oldText: seq<T>, newText: seq<T>, result: seq<T>)
    requires oldText != [] && First(text, oldText).Some?
    ensures var i := First(text, oldText).value;
            Edit(text, oldText, newText) == Edited(result) <==>
              Count(text, oldText) == 1 && result == text[..i] + newText + text[i + |oldText|..]
  {
    CountMeaning(text, oldText);
    ReplaceOnce(text, oldText, newText);
  }

  /** The text before, and the text after an undo at `j`, differ only between two common ends. */
  lemma BothTexts<T>(text: seq<T>, u: seq<T>, oldText: seq<T>, newText: seq<T>, i: nat, j: nat)
    requires At(text, oldText, i) && u == text[..i] + newText + text[i + |oldText|..] && j <= i
    ensures text == text[..j] + (u[j..i] + oldText) + text[i + |oldText|..]
    ensures u[..j] + oldText + u[j + |newText|..] ==
            text[..j] + (oldText + u[j + |newText|..i + |newText|]) + text[i + |oldText|..]
  {
    var back := text[i + |oldText|..];
    assert text == text[..i] + oldText + back;
    assert text[..i] == text[..j] + u[j..i];
    assert u[..j] == text[..j] && u[i + |newText|..] == back;
    assert u[j + |newText|..] == u[j + |newText|..i + |newText|] + back;
  }

  lemma SwapBack<T>(text: seq<T>, u: seq<T>, oldText: seq<T>, newText: seq<T>, i: nat, j: nat)
    requires At(text, oldText, i) && u == text[..i] + newText + text[i + |oldText|..] && j <= i
    ensures text == u[..j] + oldText + u[j + |newText|..] <==>
              u[j..i] + oldText == oldText + u[j + |newText|..i + |newText|]
  {
    BothTexts(text, u, oldText, newText, i, j);
    SameMiddle(text[..j], u[j..i] + oldText, oldText + u[j + |newText|..i + |newText|], text[i + |oldText|..]);
  }

  lemma SameMiddle<T>(front: seq<T>, a: seq<T>, b: seq<T>, back: seq<T>)
    requires |a| == |b|
    ensures front + a + back == front + b + back <==> a == b
  {
    if front + a + back == front + b + back {
      assert a == (front + a + back)[|front|..|front| + |a|];
      assert b == (front + b + back)[|front|..|front| + |b|];
    }
  }

  /** If the new block stands at exactly one position of the edited text, overlaps counted, the edit can be undone. */
  lemma UndoRestores<T>(text: seq<T>, oldText: seq<T>, newText: seq<T>, at: nat)
    requires oldText != [] && newText != [] && Edit(text, oldText, newText).Edited?
    requires OnlyAt(Edit(text, oldText, newText).text, newText, at)
    ensures Edit(Edit(text, oldText, newText).text, newText, oldText) == Edited(text)
  {
    var u := Edit(text, oldText, newText).text;
    EditedText(text, oldText, newText);
    EditOutcome(u, newText, oldText);
    UndoExactly(text, oldText, newText, u, First(text, oldText).value, First(u, newText).value);
    CountMeaning(u, newText);
    assert u[at..at] + oldText == oldText + u[at + |newText|..at + |newText|];
  }

  /** A greedy count of one is not enough: the undo can hit an occurrence that overlaps the edit. */
  lemma UndoCanMiss()
    ensures Edit("aX", "X", "aa") == Edited("aaa")
    ensures Count("aaa", "aa") == 1
    ensures Edit("aaa", "aa", "X") == Edited("Xa")
  {
    assert First("aX", "X") == Some(1) by { assert "aX"[1..2] == "X" && "aX"[0..1] == "a"; }
    CountMeaning("aX", "X");
    assert forall i: nat, j: nat :: !Apart("aX", "X", i, j);
    ReplaceOnce("aX", "X", "aa");
    assert First("aaa", "aa") == Some(0) by { assert "aaa"[0..2] == "aa"; }
    CountMeaning("aaa", "aa");
    assert forall i: nat, j: nat :: !Apart("aaa", "aa", i, j);
    ReplaceOnce("aaa", "aa", "X");
  }

  /** The lax case of the greedy count: "aa" is accepted as unique in "aaa", where it stands at 0 and at 1. */
  lemma LaxExample()
    ensures At("aaa", "aa", 0) && At("aaa", "aa", 1) && Edit("aaa", "aa", "b").Edited?
  {
    assert "aaa"[0..2] == "aa" && "aaa"[1..3] == "aa";
    CountMeaning("aaa", "aa");
    assert forall i: nat, j: nat :: !Apart("aaa", "aa", i, j);
  }
}
