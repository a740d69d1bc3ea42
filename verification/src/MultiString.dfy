/** The multi-string codec: how a list of strings is stored in one registry value and read back. */
module MultiString {

  const NUL: char := '\0'

  function Join(values: seq<string>): string {
    if |values| == 0 then ""
    else if |values| == 1 then values[0]
    else values[0] + [NUL] + Join(values[1..])
  }

  /** What is written: the joined strings and two terminators. */
  function Encode(values: seq<string>): string {
    Join(values) + [NUL, NUL]
  }

  /** Splitting text that is known not to be the empty range. */
  function Pieces(s: string): (r: seq<string>)
    ensures |r| >= 1
  {
    if s == "" then [""]
    else if s[0] == NUL then [""] + Pieces(s[1..])
    else
      var rest := Pieces(s[1..]);
      [[s[0]] + rest[0]] + rest[1..]
  }

  /** The split view: the empty range has no parts at all. */
  function Split(s: string): seq<string> {
    if s == "" then [] else Pieces(s)
  }

  /** What is read back: everything but the last character is split, which leaves one terminator in. */
  function Decode(buffer: string): seq<string> {
    if buffer == "" then [] else Split(buffer[..|buffer| - 1])
  }

  /** The reading that drops both terminators. */
  function DecodeExactly(buffer: string): seq<string> {
    if |buffer| < 2 then [] else Split(buffer[..|buffer| - 2])
  }

  ghost predicate NulFree(values: seq<string>) {
    forall i | 0 <= i < |values| :: NUL !in values[i]
  }

  lemma {:induction false} PiecesOf(first: string, rest: string)
    requires NUL !in first
    ensures Pieces(first + [NUL] + rest) == [first] + Pieces(rest)
  {
    var s := first + [NUL] + rest;
    if first == "" {
      assert s[1..] == rest;
    } else {
      assert first[0] in first;
      assert s[1..] == first[1..] + [NUL] + rest;
      PiecesOf(first[1..], rest);
      assert [first[0]] + first[1..] == first;
    }
  }

  lemma {:induction false} PiecesOfOne(s: string)
    requires NUL !in s
    ensures Pieces(s) == [s]
  {
    if s != "" {
      assert s[0] in s;
      PiecesOfOne(s[1..]);
      assert [s[0]] + s[1..] == s;
    }
  }

  lemma {:induction false} PiecesOfJoin(values: seq<string>)
    requires values != [] && NulFree(values)
    ensures Pieces(Join(values)) == values
    ensures Pieces(Join(values) + [NUL]) == values + [""]
    decreases |values|
  {
    var first, rest := values[0], values[1..];
    if rest == [] {
      PiecesOfOne(first);
      PiecesOf(first, "");
      assert first + [NUL] + "" == first + [NUL];
    } else {
      PiecesOfJoin(rest);
      PiecesOf(first, Join(rest));
      PiecesOf(first, Join(rest) + [NUL]);
      assert Join(values) + [NUL] == first + [NUL] + (Join(rest) + [NUL]);
    }
  }

  lemma JoinLonger(ch: char, rest: seq<string>)
    requires rest != [] && NulFree(rest) && ch != NUL
    ensures var r := [[ch] + rest[0]] + rest[1..]; Join(r) == [ch] + Join(rest) && NulFree(r)
  {
    var r := [[ch] + rest[0]] + rest[1..];
    assert r[1..] == rest[1..];
    if |rest| > 1 {
      assert [ch] + rest[0] + [NUL] + Join(rest[1..]) == [ch] + (rest[0] + [NUL] + Join(rest[1..]));
    }
  }

  lemma {:induction false} JoinOfPieces(s: string)
    ensures Join(Pieces(s)) == s && NulFree(Pieces(s))
    decreases |s|
  {
    if s != "" {
      var rest := Pieces(s[1..]);
      JoinOfPieces(s[1..]);
      assert s == [s[0]] + s[1..];
      if s[0] == NUL {
        assert [""] + rest == Pieces(s) && ([""] + rest)[1..] == rest;
        assert "" + [NUL] + Join(rest) == s;
      } else {
        JoinLonger(s[0], rest);
      }
    }
  }

  /**
   Whatever is stored, terminated or not: nothing is read from one character or none, and otherwise the strings read
   have no NUL in them and are, joined again, all that is stored but its last character.
   */
  lemma DecodeOfAny(buffer: string)
    ensures |buffer| <= 1 ==> Decode(buffer) == []
    ensures |buffer| > 1 ==>
              Decode(buffer) != [] && NulFree(Decode(buffer)) && Join(Decode(buffer)) == buffer[..|buffer| - 1]
  {
    if |buffer| > 1 {
      JoinOfPieces(buffer[..|buffer| - 1]);
    }
  }

  /** As written, reading back gives one empty string too many, and the empty list comes back as two of them. */
  lemma DecodeOfEncode(values: seq<string>)
    requires NulFree(values)
    ensures Decode(Encode(values)) == if values == [] then ["", ""] else values + [""]
  {
    assert Encode(values)[..|Encode(values)| - 1] == Join(values) + [NUL];
    if values == [] {
      PiecesOf("", "");
      assert "" + [NUL] + "" == "" + [NUL];
    } else {
      PiecesOfJoin(values);
    }
  }

  lemma {:induction false} JoinIsEmpty(values: seq<string>)
    ensures Join(values) == "" <==> values == [] || values == [""]
  {
  }

  /** Dropping both terminators inverts the encoding of every list except the one that holds only an empty string. */
  lemma DecodeExactlyInverts(values: seq<string>)
    requires NulFree(values)
    ensures DecodeExactly(Encode(values)) == values <==> values != [""]
  {
    assert Encode(values)[..|Encode(values)| - 2] == Join(values);
    JoinIsEmpty(values);
    if values != [] {
      PiecesOfJoin(values);
    }
  }

  /** No better decoder exists: exactly the empty list and the list of one empty string are confused. */
  lemma EncodeConfusesOnlyTwo(a: seq<string>, b: seq<string>)
    requires NulFree(a) && NulFree(b)
    ensures Encode(a) == Encode(b) <==> a == b || (a in [[], [""]] && b in [[], [""]])
  {
    JoinIsEmpty(a);
    JoinIsEmpty(b);
    if Encode(a) == Encode(b) {
      assert Join(a) == Encode(a)[..|Encode(a)| - 2] == Join(b);
      if a != [] && b != [] {
        PiecesOfJoin(a);
        PiecesOfJoin(b);
      }
    }
  }
}
