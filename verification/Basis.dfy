/**
 * What a department is certified against: a hash of its modules' instruction hashes, joined as
 * text. SHA-256 is opaque; what is proved is that the text under it determines the mapping.
 */
module Basis {
  import opened Text

  const PREFIX := "office/unit-b/v1\n"

  /** The width of a SHA-256 digest in hexadecimal. */
  const WIDTH := 64

  const HEX_DIGITS: set<char> := {'0', '1', '2', '3', '4', '5', '6', '7', '8', '9', 'a', 'b', 'c', 'd', 'e', 'f'}

  predicate IsDigest(text: string) {
    |text| == WIDTH && forall i :: 0 <= i < |text| ==> text[i] in HEX_DIGITS
  }

  function Line(id: string, digest: string): string { id + ":" + digest }

  function Lines(digests: map<string, string>, ids: seq<string>): (lines: seq<string>)
    requires forall i :: 0 <= i < |ids| ==> ids[i] in digests
    ensures |lines| == |ids|
    ensures forall i :: 0 <= i < |ids| ==> lines[i] == Line(ids[i], digests[ids[i]])
  {
    seq(|ids|, i requires 0 <= i < |ids| => Line(ids[i], digests[ids[i]]))
  }

  /** `module:hash` a line, in the order of the module ids. */
  function Material(digests: map<string, string>): string {
    Join(Lines(digests, Sorted(digests.Keys)), '\n')
  }

  /** Digests of the fixed width under ids that hold no line end. */
  predicate Plain(digests: map<string, string>) {
    forall id :: id in digests ==> '\n' !in id && IsDigest(digests[id])
  }

  lemma LineIdentifies(id: string, digest: string, other: string, otherDigest: string)
    requires IsDigest(digest) && IsDigest(otherDigest) && Line(id, digest) == Line(other, otherDigest)
    ensures id == other && digest == otherDigest
  {
    var line := Line(id, digest);
    assert |id| == |line| - WIDTH - 1 == |other|;
    assert line[..|id|] == id && line[..|other|] == other;
    assert line[|id| + 1..] == digest && line[|other| + 1..] == otherDigest;
  }

  lemma LinesAreFree(digests: map<string, string>, ids: seq<string>)
    requires Plain(digests) && forall i :: 0 <= i < |ids| ==> ids[i] in digests
    ensures Free(Lines(digests, ids), '\n')
  {
    forall i | 0 <= i < |ids| ensures '\n' !in Lines(digests, ids)[i] {
      assert '\n' !in ids[i] && IsDigest(digests[ids[i]]);
      assert '\n' !in digests[ids[i]];
    }
  }

  /** Lines hold no line end, so the text splits back into them. */
  lemma MaterialSplits(digests: map<string, string>)
    requires digests != map[] && Plain(digests)
    ensures Split(Material(digests), '\n') == Lines(digests, Sorted(digests.Keys))
  {
    var ids := Sorted(digests.Keys);
    assert |ids| > 0;
    LinesAreFree(digests, ids);
    SplitUndoesJoin(Lines(digests, ids), '\n');
  }

  /** Equal lines are lines of equal ids and equal digests. */
  lemma SameLinesSameDigests(a: map<string, string>, b: map<string, string>, mine: seq<string>, theirs: seq<string>)
    requires (forall i :: 0 <= i < |mine| ==> mine[i] in a) && (forall i :: 0 <= i < |theirs| ==> theirs[i] in b)
    requires (forall id :: id in a ==> IsDigest(a[id])) && (forall id :: id in b ==> IsDigest(b[id]))
    requires Lines(a, mine) == Lines(b, theirs)
    ensures mine == theirs && forall i :: 0 <= i < |mine| ==> a[mine[i]] == b[mine[i]]
  {
    assert |mine| == |Lines(a, mine)| == |theirs|;
    forall i | 0 <= i < |mine| ensures mine[i] == theirs[i] && a[mine[i]] == b[theirs[i]] {
      assert Lines(a, mine)[i] == Lines(b, theirs)[i];
      LineIdentifies(mine[i], a[mine[i]], theirs[i], b[theirs[i]]);
    }
  }

  lemma SameLinesSameMapping(a: map<string, string>, b: map<string, string>, ids: seq<string>)
    requires (forall id :: id in ids <==> id in a) && (forall id :: id in ids <==> id in b)
    requires forall i :: 0 <= i < |ids| ==> a[ids[i]] == b[ids[i]]
    ensures a == b
  {
    forall id | id in a ensures id in b && a[id] == b[id] {
      assert id in ids;
    }
  }

  lemma SortedLinesIdentify(a: map<string, string>, b: map<string, string>, mine: seq<string>, theirs: seq<string>)
    requires (forall id :: id in mine <==> id in a) && (forall id :: id in theirs <==> id in b)
    requires (forall id :: id in a ==> IsDigest(a[id])) && (forall id :: id in b ==> IsDigest(b[id]))
    requires Lines(a, mine) == Lines(b, theirs)
    ensures a == b
  {
    SameLinesSameDigests(a, b, mine, theirs);
    SameLinesSameMapping(a, b, mine);
  }

  lemma SameMaterialSameMapping(a: map<string, string>, b: map<string, string>)
    requires a != map[] && b != map[] && Plain(a) && Plain(b) && Material(a) == Material(b)
    ensures a == b
  {
    var mine, theirs := Sorted(a.Keys), Sorted(b.Keys);
    MaterialSplits(a);
    MaterialSplits(b);
    SortedLinesIdentify(a, b, mine, theirs);
  }

  /** The text determines the mapping, and the mapping the text, for ids without a line end. */
  lemma MaterialIdentifies(a: map<string, string>, b: map<string, string>)
    requires a != map[] && b != map[] && Plain(a) && Plain(b)
    ensures Material(a) == Material(b) <==> a == b
  {
    if Material(a) == Material(b) {
      SameMaterialSameMapping(a, b);
    }
  }

  lemma SortedPair(a: string, b: string)
    requires a != b && Leq(a, b)
    ensures Sorted({a, b}) == [a, b]
  {
    LeqIsAnOrder(a, b, b);
    LeqIsAnOrder(a, a, a);
    assert IsLeast({a, b}, a) && !IsLeast({a, b}, b);
    assert Sorted({a, b}) == [a] + Sorted({a, b} - {a});
    SortedOne(b);
    assert {a, b} - {a} == {b};
  }

  lemma SortedOne(a: string)
    ensures Sorted({a}) == [a]
  {
    LeqIsAnOrder(a, a, a);
    assert IsLeast({a}, a);
    assert {a} - {a} == {};
  }

  lemma JoinPair(first: string, second: string)
    ensures Join([first, second], '\n') == first + "\n" + second
  {
    assert [first, second][1..] == [second];
  }

  lemma MaterialOfOne(id: string, digest: string)
    ensures Material(map[id := digest]) == Line(id, digest)
  {
    SortedOne(id);
    assert map[id := digest].Keys == {id};
    assert Lines(map[id := digest], [id]) == [Line(id, digest)];
  }

  lemma MaterialOfTwo(a: string, b: string, first: string, second: string)
    requires a != b && Leq(a, b)
    ensures Material(map[a := first, b := second]) == Line(a, first) + "\n" + Line(b, second)
  {
    SortedPair(a, b);
    assert map[a := first, b := second].Keys == {a, b};
    assert Lines(map[a := first, b := second], [a, b]) == [Line(a, first), Line(b, second)];
    JoinPair(Line(a, first), Line(b, second));
  }

  lemma Regrouped(first: string, b: string, digest: string)
    ensures first + "\n" + Line(b, digest) == first + "\n" + b + ":" + digest
  {
    assert first + "\n" + (b + ":" + digest) == first + "\n" + b + ":" + digest;
  }

  /** The text itself, for one member and for two. */
  lemma MaterialInFigures(a: string, b: string, first: string, second: string)
    requires a != b && Leq(a, b)
    ensures Material(map[a := first]) == a + ":" + first
    ensures Material(map[a := first, b := second]) == a + ":" + first + "\n" + b + ":" + second
  {
    MaterialOfOne(a, first);
    MaterialOfTwo(a, b, first, second);
    Regrouped(Line(a, first), b, second);
  }

  lemma Merged(line: string, b: string, digest: string)
    ensures line + "\n" + Line(b, digest) == Line(line + "\n" + b, digest)
  {
    assert line + "\n" + (b + ":" + digest) == line + "\n" + b + ":" + digest;
  }

  /** An id that holds a line end can spell two members: two different departments, one text. */
  lemma LineEndsCollide(a: string, b: string, first: string, second: string)
    requires a != b && Leq(a, b)
    ensures var merged := Line(a, first) + "\n" + b;
            && a in map[a := first, b := second] && a !in map[merged := second]
            && Material(map[a := first, b := second]) == Material(map[merged := second])
  {
    var merged := Line(a, first) + "\n" + b;
    MaterialOfTwo(a, b, first, second);
    MaterialOfOne(merged, second);
    Merged(Line(a, first), b, second);
    assert |merged| > |a|;
  }
}
