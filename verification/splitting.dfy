/** The `;`-splitter the hotel handlers apply to the `services` and `photos`
    body fields (`_splitArray` in api/controllers/hotels.controllers.js). */
module Splitting {
  import opened JsValues

  const Separator: char := ';'

  /** `s.split(";")`: the pieces between separators, empty pieces included,
      so a text with k separators has k + 1 pieces. */
  function Split(s: string): (pieces: seq<string>)
    ensures |pieces| >= 1
    decreases |s|
  {
    if |s| == 0 then [""]
    else
      var rest := Split(s[1..]);
      if s[0] == Separator then [""] + rest
      else [[s[0]] + rest[0]] + rest[1..]
  }

  /** `pieces.join(";")`. */
  function Join(pieces: seq<string>): string {
    if |pieces| == 0 then ""
    else if |pieces| == 1 then pieces[0]
    else pieces[0] + [Separator] + Join(pieces[1..])
  }

  predicate NoSeparator(pieces: seq<string>) {
    forall i | 0 <= i < |pieces| :: Separator !in pieces[i]
  }

  lemma {:induction false} JoinConsChar(c: char, pieces: seq<string>)
    requires |pieces| >= 1
    ensures Join([[c] + pieces[0]] + pieces[1..]) == [c] + Join(pieces)
  {
  }

  /** The pieces hold no separator, and joining them gives back the text. */
  lemma {:induction false} SplitJoin(s: string)
    ensures NoSeparator(Split(s))
    ensures Join(Split(s)) == s
    decreases |s|
  {
    if |s| > 0 {
      var rest := Split(s[1..]);
      SplitJoin(s[1..]);
      if s[0] == Separator {
        assert ([""] + rest)[1..] == rest;
      } else {
        JoinConsChar(s[0], rest);
        assert [s[0]] + s[1..] == s;
        var pieces := Split(s);
        forall i | 0 <= i < |pieces|
          ensures Separator !in pieces[i]
        {
          if i > 0 {
            assert pieces[i] == rest[i];
          }
        }
      }
    }
  }

  /** Conversely, splitting the join of separator-free pieces gives them back. */
  lemma {:induction false} JoinSplit(pieces: seq<string>)
    requires |pieces| >= 1 && NoSeparator(pieces)
    ensures Split(Join(pieces)) == pieces
    decreases |Join(pieces)|
  {
    var first := pieces[0];
    if first == [] {
      if |pieces| > 1 {
        var tail := pieces[1..];
        assert NoSeparator(tail) by {
          forall i | 0 <= i < |tail| ensures Separator !in tail[i] {
            assert tail[i] == pieces[i + 1];
          }
        }
        var j := Join(pieces);
        assert j == [Separator] + Join(tail);
        assert j[1..] == Join(tail);
        JoinSplit(tail);
      }
    } else {
      var shorter := [first[1..]] + pieces[1..];
      assert NoSeparator(shorter) by {
        forall i | 0 <= i < |shorter| ensures Separator !in shorter[i] {
          if i == 0 {
            assert forall k | 0 <= k < |first[1..]| :: first[1..][k] == first[k + 1];
          } else {
            assert shorter[i] == pieces[i];
          }
        }
      }
      assert [first[0]] + first[1..] == first;
      assert shorter[1..] == pieces[1..];
      JoinConsChar(first[0], shorter);
      var j := Join(pieces);
      assert j == [first[0]] + Join(shorter);
      assert j[1..] == Join(shorter);
      assert j[0] != Separator by { assert j[0] == first[0]; }
      JoinSplit(shorter);
    }
  }

  /** `_splitArray`: `[]` for an absent or empty input, otherwise the
      `;`-separated pieces. */
  function SplitArray(input: Option<string>): (out: seq<string>)
    ensures !Truthy(input) ==> out == []
    ensures Truthy(input) ==> |out| >= 1 && NoSeparator(out) && Join(out) == input.value
  {
    if Truthy(input) then
      SplitJoin(input.value);
      Split(input.value)
    else []
  }

  /** The pieces are the only separator-free list that joins to the input. */
  lemma SplitArrayUnique(input: Option<string>, pieces: seq<string>)
    requires Truthy(input)
    requires |pieces| >= 1 && NoSeparator(pieces) && Join(pieces) == input.value
    ensures SplitArray(input) == pieces
  {
    JoinSplit(pieces);
  }
}
