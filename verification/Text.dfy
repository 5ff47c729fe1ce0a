/** Text as the broker handles it: stripped, split, joined and compared. */
module Text {
  const WHITESPACE: set<char> := {' ', '\t', '\n', '\r'}

  /** `text.strip()`. */
  function Strip(text: string): string {
    if text != "" && text[0] in WHITESPACE then Strip(text[1..])
    else if text != "" && text[|text| - 1] in WHITESPACE then Strip(text[..|text| - 1])
    else text
  }

  /** The one question every reason, rationale and answer is asked: is there anything in it. */
  predicate Blank(text: string) { Strip(text) == "" }

  predicate AllBlank(text: string) { forall i :: 0 <= i < |text| ==> text[i] in {' ', '\t', '\n', '\r'} }

  lemma {:induction false} StripDecomposes(text: string) returns (before: string, after: string)
    ensures text == before + Strip(text) + after && AllBlank(before) && AllBlank(after)
  {
    if text != "" && text[0] in WHITESPACE {
      var rest := text[1..];
      before, after := StripDecomposes(rest);
      assert text == [text[0]] + rest == ([text[0]] + before) + Strip(rest) + after;
      before := [text[0]] + before;
    } else if text != "" && text[|text| - 1] in WHITESPACE {
      var rest, last := text[..|text| - 1], [text[|text| - 1]];
      before, after := StripDecomposes(rest);
      assert text == rest + last == before + Strip(rest) + (after + last);
      after := after + last;
    } else {
      before, after := "", "";
      assert text == before + text + after;
    }
  }

  lemma {:induction false} StripBaresEnds(text: string)
    requires Strip(text) != ""
    ensures Strip(text)[0] !in {' ', '\t', '\n', '\r'} && Strip(text)[|Strip(text)| - 1] !in {' ', '\t', '\n', '\r'}
  {
    if text[0] in WHITESPACE {
      StripBaresEnds(text[1..]);
    } else if text[|text| - 1] in WHITESPACE {
      StripBaresEnds(text[..|text| - 1]);
    }
  }

  /** Stripping takes whitespace off both ends and nothing else, and is done when neither end has any. */
  lemma StripIsExact(text: string) returns (before: string, after: string)
    ensures text == before + Strip(text) + after && AllBlank(before) && AllBlank(after)
    ensures var core := Strip(text);
            core != "" ==> core[0] !in {' ', '\t', '\n', '\r'} && core[|core| - 1] !in {' ', '\t', '\n', '\r'}
    ensures Blank(text) <==> AllBlank(text)
  {
    before, after := StripDecomposes(text);
    BlankIffAllBlank(text);
    if Strip(text) != "" {
      StripBaresEnds(text);
    }
  }

  lemma {:induction false} BlankIffAllBlank(text: string)
    ensures Blank(text) <==> AllBlank(text)
  {
    if text != "" && text[0] in WHITESPACE {
      BlankIffAllBlank(text[1..]);
      assert forall i :: 0 < i < |text| ==> text[i] == text[1..][i - 1];
    } else if text != "" {
      assert !AllBlank(text);
      KeepsFirst(text);
    }
  }

  lemma {:induction false} KeepsFirst(text: string)
    requires text != "" && text[0] !in WHITESPACE
    ensures Strip(text) != ""
  {
    if text[|text| - 1] in WHITESPACE {
      KeepsFirst(text[..|text| - 1]);
    }
  }

  /** `text.split(sep)`. */
  function Split(text: string, sep: char): (pieces: seq<string>)
    ensures |pieces| > 0
  {
    if text == "" then [""] else
      var rest := Split(text[1..], sep);
      if text[0] == sep then [""] + rest else [[text[0]] + rest[0]] + rest[1..]
  }

  /** `sep.join(pieces)`. */
  function Join(pieces: seq<string>, sep: char): string {
    if pieces == [] then "" else if |pieces| == 1 then pieces[0] else pieces[0] + [sep] + Join(pieces[1..], sep)
  }

  /** Splitting takes off exactly the piece before the first separator. */
  lemma {:induction false} SplitAt(piece: string, rest: string, sep: char)
    requires sep !in piece
    ensures Split(piece, sep) == [piece]
    ensures Split(piece + [sep] + rest, sep) == [piece] + Split(rest, sep)
  {
    var text := piece + [sep] + rest;
    if piece == "" {
      assert text[1..] == rest;
    } else {
      SplitAt(piece[1..], rest, sep);
      assert text[1..] == piece[1..] + [sep] + rest;
      assert [piece[0]] + piece[1..] == piece;
    }
  }

  ghost predicate Free(pieces: seq<string>, sep: char) {
    forall i :: 0 <= i < |pieces| ==> sep !in pieces[i]
  }

  /** Splitting undoes joining where no piece holds the separator. */
  lemma {:induction false} SplitUndoesJoin(pieces: seq<string>, sep: char)
    requires pieces != [] && Free(pieces, sep)
    ensures Split(Join(pieces, sep), sep) == pieces
  {
    var first, rest := pieces[0], pieces[1..];
    if rest == [] {
      SplitAt(first, "", sep);
      assert pieces == [first];
    } else {
      SplitUndoesJoin(rest, sep);
      SplitAt(first, Join(rest, sep), sep);
      assert pieces == [first] + rest;
    }
  }

  /** And joining undoes splitting, whatever the text. */
  lemma {:induction false} JoinUndoesSplit(text: string, sep: char)
    ensures Join(Split(text, sep), sep) == text && Free(Split(text, sep), sep)
  {
    if text != "" {
      var rest := Split(text[1..], sep);
      JoinUndoesSplit(text[1..], sep);
      assert text == [text[0]] + text[1..];
      if text[0] == sep {
        assert ([""] + rest)[1..] == rest;
        assert forall i :: 0 < i < |[""] + rest| ==> ([""] + rest)[i] == rest[i - 1];
      } else {
        var pieces := [[text[0]] + rest[0]] + rest[1..];
        assert pieces[1..] == rest[1..];
        assert Join(pieces, sep) == [text[0]] + Join(rest, sep);
        assert forall i :: 0 < i < |pieces| ==> pieces[i] == rest[i];
        assert sep !in rest[0];
      }
    }
  }

  // ------------------------------------------------ sorting

  /** `a <= b` as strings compare. */
  predicate Leq(a: string, b: string) {
    a == "" || (b != "" && (a[0] < b[0] || (a[0] == b[0] && Leq(a[1..], b[1..]))))
  }

  lemma {:induction false} LeqIsAnOrder(a: string, b: string, c: string)
    ensures Leq(a, b) || Leq(b, a)
    ensures Leq(a, b) && Leq(b, a) ==> a == b
    ensures Leq(a, b) && Leq(b, c) ==> Leq(a, c)
  {
    if a != "" && b != "" {
      LeqIsAnOrder(a[1..], b[1..], if c == "" then "" else c[1..]);
      assert a == [a[0]] + a[1..] && b == [b[0]] + b[1..];
    }
  }

  /** Strings compare at the first place they differ, as characters do there. */
  lemma {:induction false} LeqIsLexicographic(shared: string, c: char, d: char, a: string, b: string)
    requires c < d
    ensures Leq(shared + [c] + a, shared + [d] + b) && !Leq(shared + [d] + b, shared + [c] + a)
    ensures Leq(shared, shared + a)
  {
    if shared != "" {
      var x, y := shared + [c] + a, shared + [d] + b;
      LeqIsLexicographic(shared[1..], c, d, a, b);
      assert x[1..] == shared[1..] + [c] + a && y[1..] == shared[1..] + [d] + b;
      assert (shared + a)[1..] == shared[1..] + a;
    }
  }

  lemma LeqIsAntisymmetric()
    ensures forall a, b :: Leq(a, b) && Leq(b, a) ==> a == b
  {
    forall a, b | Leq(a, b) && Leq(b, a) ensures a == b {
      LeqIsAnOrder(a, b, b);
    }
  }

  predicate IsLeast(texts: set<string>, least: string) {
    least in texts && forall t :: t in texts ==> Leq(least, t)
  }

  lemma {:induction false} SomeIsLeast(texts: set<string>) returns (least: string)
    requires texts != {}
    ensures IsLeast(texts, least)
  {
    var t :| t in texts;
    least := t;
    LeqIsAnOrder(t, t, t);
    if texts != {t} {
      var other := SomeIsLeast(texts - {t});
      LeqIsAnOrder(t, other, t);
      least := if Leq(t, other) then t else other;
      forall u | u in texts ensures Leq(least, u) {
        LeqIsAnOrder(least, other, u);
        LeqIsAnOrder(other, other, other);
      }
    }
  }

  lemma HasLeast(texts: set<string>)
    requires texts != {}
    ensures exists least :: IsLeast(texts, least)
  {
    var least := SomeIsLeast(texts);
  }

  /** `sorted(texts)`. */
  function Sorted(texts: set<string>): (sorted: seq<string>)
    ensures forall t :: t in sorted <==> t in texts
    ensures |sorted| == |texts|
    ensures forall i, j :: 0 <= i < j < |sorted| ==> Leq(sorted[i], sorted[j])
  {
    if texts == {} then [] else
      HasLeast(texts);
      LeqIsAntisymmetric();
      var least :| IsLeast(texts, least);
      [least] + Sorted(texts - {least})
  }
}
