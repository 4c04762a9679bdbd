/** `get_string_block`: the lines of a report from the first line holding a
    start marker up to, not including, the next line holding an end marker.
    The report is the sequence of its lines, each with its line terminator. */
module Block {
  import opened Text

  /** The first index at or after `from` whose line contains `pat`, or
      `|lines|` when there is none. */
  function FirstWith(lines: seq<string>, pat: string, from: nat): (k: nat)
    requires from <= |lines|
    ensures from <= k <= |lines|
    ensures k < |lines| ==> Contains(lines[k], pat)
    ensures forall j :: from <= j < k ==> !Contains(lines[j], pat)
    decreases |lines| - from
  {
    if from == |lines| || Contains(lines[from], pat) then from
    else FirstWith(lines, pat, from + 1)
  }

  /** What the extraction yields: the slice from the first line containing
      `start` (that line included) to the first line at or after it that
      contains `end`, or to the last line when there is none. */
  function StringBlock(lines: seq<string>, start: string, end: string): (block: seq<string>)
    ensures (forall i :: 0 <= i < |lines| ==> !Contains(lines[i], start)) ==> block == []
    ensures block != [] ==> Contains(block[0], start)
    ensures forall k :: 0 <= k < |block| ==> !Contains(block[k], end)
  {
    var s := FirstWith(lines, start, 0);
    if s == |lines| then [] else lines[s..FirstWith(lines, end, s)]
  }

  /** The loop of `get_string_block`: a flag switches on at the first line
      holding `start`; from then on a line holding `end` stops the scan and
      every other line is appended, the line that switched the flag on
      included. */
  method GetStringBlock(file: seq<string>, start: string, end: string) returns (block: seq<string>)
    ensures block == StringBlock(file, start, end)
  {
    ghost var s := FirstWith(file, start, 0);
    block := [];
    var switchRead := false;
    var i := 0;
    while i < |file|
      invariant 0 <= i <= |file|
      invariant switchRead <==> s < i
      invariant switchRead ==> FirstWith(file, end, s) >= i && block == file[s..i]
      invariant !switchRead ==> block == []
    {
      var line := file[i];
      if Contains(line, start) {
        switchRead := true;
      }
      if switchRead {
        if Contains(line, end) {
          break;
        }
        block := block + [line];
      }
      i := i + 1;
    }
  }

  /** The block is pinned down by its two boundaries: `s` is the first line
      containing `start`, and `e` is the first line at or after `s` that
      contains `end`, or the number of lines. */
  lemma StringBlockIsSlice(lines: seq<string>, start: string, end: string, s: nat, e: nat)
    requires s < |lines| && Contains(lines[s], start)
    requires forall j :: 0 <= j < s ==> !Contains(lines[j], start)
    requires s <= e <= |lines|
    requires e < |lines| ==> Contains(lines[e], end)
    requires forall j :: s <= j < e ==> !Contains(lines[j], end)
    ensures StringBlock(lines, start, end) == lines[s..e]
  {
    var s' := FirstWith(lines, start, 0);
    var e' := FirstWith(lines, end, s);
  }

  /** The block is empty exactly when no line contains `start`, or when the
      first such line also contains `end`. */
  lemma StringBlockEmpty(lines: seq<string>, start: string, end: string)
    ensures StringBlock(lines, start, end) == [] <==>
      (forall i :: 0 <= i < |lines| ==> !Contains(lines[i], start)) ||
      (exists s :: 0 <= s < |lines| && Contains(lines[s], start) && Contains(lines[s], end)
         && forall j :: 0 <= j < s ==> !Contains(lines[j], start))
  {
    var s := FirstWith(lines, start, 0);
    if s < |lines| {
      if Contains(lines[s], end) {
        assert FirstWith(lines, end, s) == s;
      } else {
        assert lines[s..FirstWith(lines, end, s)][0] == lines[s];
        forall s' | 0 <= s' < |lines| && Contains(lines[s'], start) && Contains(lines[s'], end)
          ensures exists j :: 0 <= j < s' && Contains(lines[j], start)
        {
          assert s' != s;
        }
      }
    }
  }
}
