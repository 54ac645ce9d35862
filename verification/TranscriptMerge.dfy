/**
 Merging the transcripts of overlapping windows. A text is a sequence of characters (runes). What Normalize does to a
 part is left open: it is any function on texts.
 */
module TranscriptMerge {

  const LONGEST := 40
  const SHORTEST := 4

  // The last size characters of left are the first of right.
  predicate Match(left: string, right: string, size: nat) {
    size <= |left| && size <= |right| && left[|left| - size..] == right[..size]
  }

  // A match the merge may use.
  predicate Candidate(left: string, right: string, size: nat) {
    SHORTEST <= size <= LONGEST && Match(left, right, size)
  }

  // The longest candidate no longer than size, or 0.
  function Best(left: string, right: string, size: nat): nat {
    if size < SHORTEST then 0 else if Candidate(left, right, size) then size else Best(left, right, size - 1)
  }

  function Overlap(left: string, right: string): nat { Best(left, right, LONGEST) }

  lemma {:induction false} BestIsLongest(left: string, right: string, size: nat)
    requires size <= LONGEST
    ensures var o := Best(left, right, size);
      && (o == 0 || (4 <= o <= 40 && o <= size && Match(left, right, o)))
      && forall k: nat :: k <= size && 4 <= k <= 40 && Match(left, right, k) ==> k <= o
  {
    if size >= SHORTEST && !Candidate(left, right, size) {
      BestIsLongest(left, right, size - 1);
    }
  }

  // One part appended: the overlap is dropped, or a newline put in when there is none.
  function Append(merged: string, part: string): string {
    if part == "" then merged
    else if merged == "" then part
    else
      var o := Overlap(merged, part);
      if o > 0 && o <= |part| then merged + part[o..] else merged + "\n" + part
  }

  function Merged(normalize: string -> string, parts: seq<string>): string {
    if parts == [] then ""
    else Append(Merged(normalize, parts[..|parts| - 1]), normalize(parts[|parts| - 1]))
  }

  predicate Suffix(s: string, t: string) { |s| <= |t| && t[|t| - |s|..] == s }

  /** Appending loses nothing: what was merged stays in front, the part stands whole at the end, and the length is the
      two lengths less the longest match of 4 to 40 characters, or plus one newline when there is none. */
  lemma AppendLosesNothing(merged: string, part: string)
    ensures merged <= Append(merged, part) && Suffix(part, Append(merged, part))
    ensures merged != "" && part != "" ==> var o := Overlap(merged, part);
      |Append(merged, part)| == if o > 0 then |merged| + |part| - o else |merged| + |part| + 1
    ensures merged == "" || part == "" ==> |Append(merged, part)| == |merged| + |part|
    ensures merged != "" && part != "" && (forall k: nat :: 4 <= k <= 40 ==> !Match(merged, part, k)) ==>
      Append(merged, part) == merged + "\n" + part
  {
    var t, o := Append(merged, part), Overlap(merged, part);
    BestIsLongest(merged, part, LONGEST);
    if merged != "" && part != "" && o > 0 {
      assert t == merged[..|merged| - o] + part by {
        assert merged == merged[..|merged| - o] + part[..o] && part == part[..o] + part[o..];
      }
      assert t[|t| - |part|..] == part;
    } else {
      assert t[|t| - |part|..] == part;
    }
  }

  lemma {:induction false} MergeGrows(normalize: string -> string, parts: seq<string>, k: nat)
    requires k <= |parts|
    ensures Merged(normalize, parts[..k]) <= Merged(normalize, parts)
    decreases |parts| - k
  {
    if k < |parts| {
      MergeGrows(normalize, parts, k + 1);
      assert parts[..k + 1][..k] == parts[..k];
      AppendLosesNothing(Merged(normalize, parts[..k]), normalize(parts[k]));
    } else {
      assert parts[..k] == parts;
    }
  }

  lemma PartEnds(normalize: string -> string, parts: seq<string>, k: nat)
    requires k < |parts|
    ensures Suffix(normalize(parts[k]), Merged(normalize, parts[..k + 1]))
  {
    assert parts[..k + 1][..k] == parts[..k];
    AppendLosesNothing(Merged(normalize, parts[..k]), normalize(parts[k]));
  }

  lemma SuffixOfPrefix(part: string, upTo: string, all: string)
    requires Suffix(part, upTo) && upTo <= all
    ensures all[|upTo| - |part|..|upTo|] == part
  {
    assert all[..|upTo|] == upTo;
    assert all[|upTo| - |part|..|upTo|] == upTo[|upTo| - |part|..];
  }

  /** Nothing is lost in the whole merge: each normalized part stands in the result in one piece, at the end of what
      the parts up to it make, and that is a prefix of the result. */
  lemma EveryPartIsThere(normalize: string -> string, parts: seq<string>, k: nat)
    requires k < |parts|
    ensures var upTo := Merged(normalize, parts[..k + 1]); var all := Merged(normalize, parts);
      && upTo <= all && Suffix(normalize(parts[k]), upTo)
      && all[|upTo| - |normalize(parts[k])|..|upTo|] == normalize(parts[k])
  {
    MergeGrows(normalize, parts, k + 1);
    PartEnds(normalize, parts, k);
    SuffixOfPrefix(normalize(parts[k]), Merged(normalize, parts[..k + 1]), Merged(normalize, parts));
  }

  // A stretch that the merge can find, and no longer one matches by chance.
  predicate FoundExactly(before: string, shared: string, after: string) {
    SHORTEST <= |shared| <= LONGEST
    && forall k: nat :: |shared| < k && k <= LONGEST ==> !Match(before + shared, shared + after, k)
  }

  /** Two windows of one text rejoin to that text if and only if one of them is empty, or what they share has 4 to 40
      characters and they have no longer match. A shorter or longer shared stretch is repeated, a longer match loses
      text. */
  lemma WindowsRejoin(before: string, shared: string, after: string)
    ensures Append(before + shared, shared + after) == before + shared + after
      <==> before + shared == "" || shared + after == "" || FoundExactly(before, shared, after)
  {
    var left, right := before + shared, shared + after;
    var o := Overlap(left, right);
    BestIsLongest(left, right, LONGEST);
    AppendLosesNothing(left, right);
    assert left[|left| - |shared|..] == shared && right[..|shared|] == shared;
    if left == "" || right == "" {
      assert shared == "" && Append(left, right) == before + shared + after;
    } else if FoundExactly(before, shared, after) {
      assert Candidate(left, right, |shared|);
      assert o == |shared| && right[o..] == after;
      assert Append(left, right) == before + shared + after;
    } else if o == |shared| && o > 0 {
      assert false;
    } else {
      assert |Append(left, right)| != |before + shared + after|;
    }
  }

  /** A repeating text can lose a repetition: the windows "abab" + "abab" and "abab" + "abab" of a text of twelve
      characters merge to eight. */
  lemma RepetitionCanBeLost()
    ensures Append("abab" + "abab", "abab" + "abab") != "abab" + "abab" + "abab"
  {
    assert Match("abab" + "abab", "abab" + "abab", 8);
    WindowsRejoin("abab", "abab", "abab");
  }

  /** Three shared characters, or forty-one, are repeated. */
  lemma ShortAndLongAreRepeated(long: string)
    requires |long| == LONGEST + 1
    ensures Append("x" + "abc", "abc" + "y") != "x" + "abc" + "y"
    ensures Append("x" + long, long + "y") != "x" + long + "y"
  {
    WindowsRejoin("x", "abc", "y");
    WindowsRejoin("x", long, "y");
  }

  // Downwards from the greatest possible size to the first match.
  method FindOverlap(left: string, right: string) returns (overlap: nat)
    ensures overlap == Overlap(left, right)
  {
    var max := if |left| < |right| then |left| else |right|;
    max := if LONGEST < max then LONGEST else max;
    TooLong(left, right, max, LONGEST);
    var size := max;
    while size >= SHORTEST
      invariant 0 <= size <= max && Best(left, right, size) == Overlap(left, right)
    {
      if left[|left| - size..] == right[..size] {
        return size;
      }
      size := size - 1;
    }
    overlap := 0;
  }

  lemma {:induction false} TooLong(left: string, right: string, max: nat, size: nat)
    requires max <= size <= LONGEST && (max == LONGEST || max >= |left| || max >= |right|)
    ensures Best(left, right, size) == Best(left, right, max)
    decreases size
  {
    if max < size {
      TooLong(left, right, max, size - 1);
    }
  }

  /** The loop of the source computes the merge above. */
  method Merge(normalize: string -> string, parts: seq<string>) returns (merged: string)
    ensures merged == Merged(normalize, parts)
  {
    merged := "";
    for i := 0 to |parts|
      invariant merged == Merged(normalize, parts[..i])
    {
      assert parts[..i + 1][..i] == parts[..i];
      var part := normalize(parts[i]);
      if part == "" {
        continue;
      }
      if merged == "" {
        merged := part;
        continue;
      }
      var overlap := FindOverlap(merged, part);
      BestIsLongest(merged, part, LONGEST);
      if overlap > 0 {
        merged := merged + part[overlap..];
      } else {
        merged := merged + "\n" + part;
      }
    }
    assert parts[..|parts|] == parts;
  }
}
