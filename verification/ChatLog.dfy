/** The chat's transcript: bounded, and mirrored into the label it is shown in. */
module ChatLog {
  import opened Strings

  const HIGH := 8000
  const LOW := 6000
  const NUL := '\U{0}'

  /** A C string ends at its first NUL. */
  function CString(s: string): string { s[..Find(s, NUL, 0)] }

  ghost predicate EndsWith(s: string, t: string) { |t| <= |s| && s[|s| - |t|..] == t }

  /** t is some last lines of s: all of it, or what follows a line break. */
  ghost predicate LastLines(s: string, t: string) {
    EndsWith(s, t) && (t == s || s[|s| - |t| - 1] == '\n')
  }

  /** The lower bound is kept, less what there is of it up to its first line break, if it has one. */
  ghost predicate IsTrimmed(s: string, t: string) {
    EndsWith(s, t) && |t| <= LOW &&
    if |t| == LOW then '\n' !in t
    else LastLines(s, t) && |s| >= LOW && '\n' !in s[|s| - LOW..|s| - |t| - 1]
  }

  method Trim(s: string) returns (t: string)
    requires |s| > HIGH
    ensures IsTrimmed(s, t)
  {
    var cut := |s| - LOW;
    var nl := Find(s, '\n', cut);
    t := s[if nl == |s| then cut else nl + 1..];
  }

  predicate Plain(s: string) { NUL !in s }

  /** What a line adds to the text. */
  function Added(text: string, prefix: string, line: string): string {
    (if text == "" then "" else "\n") + prefix + line
  }

  class ChatLog {
    var text: string
    var shown: string
    /** Everything ever said. */
    ghost var all: string

    /**
     The text kept is the end of all that was said, no longer than the bound. The label shows it exactly while
     there is no NUL in it; the first trim that leaves none repairs the label.
     */
    ghost predicate Valid()
      reads this
    {
      |text| <= HIGH && EndsWith(all, text) && |shown| <= |text| && (shown == text <==> Plain(text))
    }

    constructor ()
      ensures Valid() && all == "" && text == ""
    {
      text, shown, all := "", "", "";
    }

    method Clear()
      modifies this
      ensures Valid() && all == "" && text == ""
    {
      text, shown, all := "", "", "";
    }

    /**
     One more line. Past the upper bound the text is cut to the lower one, at a line break if there is one
     in what is kept.
     */
    method Append(prefix: string, line: string)
      requires Valid()
      modifies this
      ensures Valid() && all == old(all) + Added(old(text), prefix, line)
      ensures all == old(all) + (if old(text) == "" then "" else "\n") + prefix + line
      ensures var said := old(text) + Added(old(text), prefix, line);
              if |said| <= HIGH then text == said
              else IsTrimmed(said, text)
    {
      hide EndsWith, IsTrimmed, CString, Plain, Added;
      var add := Added(text, prefix, line);
      StillEnds(all, text, add);
      AddedIs(all, text, prefix, line);
      all := all + add;
      Mirrored(text, shown, add);
      text := text + add;
      if |text| > HIGH {
        ghost var said := text;
        text := Trim(text);
        EndsTwice(all, said, text);
        Whole(text);
        shown := CString(text);
      } else {
        shown := shown + CString(add);
      }
    }
  }

  lemma AddedIs(all: string, text: string, prefix: string, line: string)
    ensures all + Added(text, prefix, line) == all + (if text == "" then "" else "\n") + prefix + line
  {
  }

  /** A label that mirrors the text as far as it can goes on doing so. */
  lemma Mirrored(text: string, shown: string, add: string)
    requires |shown| <= |text| && (shown == text <==> Plain(text))
    ensures |shown + CString(add)| <= |text + add|
    ensures shown + CString(add) == text + add <==> Plain(text + add)
  {
    Whole(add);
    PlainBoth(text, add);
    hide CString, Plain;
    if shown + CString(add) == text + add {
      assert |shown| == |text|;
      assert shown == (shown + CString(add))[..|shown|] == (text + add)[..|text|] == text;
    }
  }

  lemma StillEnds(s: string, t: string, add: string)
    requires EndsWith(s, t)
    ensures EndsWith(s + add, t + add)
  {
  }

  lemma EndsTwice(s: string, t: string, u: string)
    requires EndsWith(s, t) && EndsWith(t, u)
    ensures EndsWith(s, u)
  {
  }

  lemma Whole(s: string)
    ensures |CString(s)| <= |s|
    ensures Plain(s) ==> CString(s) == s
    ensures !Plain(s) ==> |CString(s)| < |s|
  {
    var j := Find(s, NUL, 0);
    if j < |s| { assert s[j] in s; }
  }

  lemma PlainBoth(a: string, b: string)
    ensures Plain(a + b) <==> Plain(a) && Plain(b)
  {
  }
}
