/** The panel's block in a user's crontab (internal/cron/cron.go): written by Sync between two marker
    lines, taken out again by the next Sync. */
module Crontab {
  import opened Common
  import opened Texts
  import opened Splits

  datatype Marks = Marks(begin: string, end: string)

  /** One-line comments, neither of which starts the other. */
  ghost predicate Sound(m: Marks) {
    && '\n' !in m.begin && '\n' !in m.end
    && |m.begin| > 2 && |m.end| > 2 && m.begin[0] == m.end[0] == '#' && m.begin[2] != m.end[2]
  }

  function Begin(): (s: string)
    ensures |s| > 2 && s[0] == '#' && s[2] == 'B' && '\n' !in s
  {
    "# BEGIN Open " + "ProPanel \U{2014} managed " + "cron jobs (do not " + "edit by hand)"
  }

  function End(): (s: string)
    ensures |s| > 2 && s[0] == '#' && s[2] == 'E' && '\n' !in s
  {
    "# END " + "Open ProPanel"
  }

  /** The panel's own markers. */
  function Panel(): (m: Marks)
    ensures Sound(m)
  {
    Marks(Begin(), End())
  }

  predicate Begins(m: Marks, line: string) { m.begin <= line }

  predicate Ends(m: Marks, line: string) { m.end <= line }

  // ---- Which lines are outside the block ----

  /** Whether the line after these is inside a block. */
  predicate Inside(m: Marks, lines: seq<string>) {
    lines != [] && (Begins(m, Last(lines)) || (Inside(m, lines[..|lines| - 1]) && !Ends(m, Last(lines))))
  }

  /** The lines that are neither in a block nor a marker of one. */
  function Outside(m: Marks, lines: seq<string>): seq<string> {
    if lines == [] then []
    else
      var before := lines[..|lines| - 1];
      Outside(m, before) + if Begins(m, Last(lines)) || Inside(m, before) then [] else [Last(lines)]
  }

  /** A block runs from a begin line to the next end line, or to the end of the text. */
  lemma {:induction false} InsideMeans(m: Marks, lines: seq<string>)
    requires Sound(m)
    ensures Inside(m, lines) <==>
      exists b :: 0 <= b < |lines| && Begins(m, lines[b]) && forall k | b < k < |lines| :: !Ends(m, lines[k])
  {
    if lines != [] {
      var before := lines[..|lines| - 1];
      InsideMeans(m, before);
      if Begins(m, Last(lines)) {
        assert Last(lines) == lines[|lines| - 1];
      } else if Inside(m, before) && !Ends(m, Last(lines)) {
        var b :| 0 <= b < |before| && Begins(m, before[b]) && forall k | b < k < |before| :: !Ends(m, before[k]);
        assert Begins(m, lines[b]);
        forall k | b < k < |lines| ensures !Ends(m, lines[k]) {
          assert k < |before| ==> lines[k] == before[k];
        }
      }
      if b :| 0 <= b < |lines| - 1 && Begins(m, lines[b]) && forall k | b < k < |lines| :: !Ends(m, lines[k]) {
        assert Begins(m, before[b]);
        assert !Ends(m, Last(lines));
      }
    }
  }

  predicate At(s: string, part: string, i: nat) { i + |part| <= |s| && s[i..i + |part|] == part }

  predicate Contains(s: string, part: string) {
    exists i | 0 <= i <= |s| :: At(s, part, i)
  }

  /** The crontab without its managed blocks. */
  function Stripped(m: Marks, crontab: string): string {
    Join(Outside(m, Split(crontab, '\n')), "\n")
  }

  method StripManagedBlock(m: Marks, crontab: string) returns (r: string)
    ensures r == Stripped(m, crontab)
  {
    if !Contains(crontab, m.begin) {
      NothingToStrip(m, crontab);
      return crontab;
    }
    var lines := Split(crontab, '\n');
    var out: seq<string> := [];
    var skip := false;
    for k := 0 to |lines|
      invariant out == Outside(m, lines[..k]) && skip == Inside(m, lines[..k])
    {
      assert lines[..k + 1][..k] == lines[..k];
      if Begins(m, lines[k]) {
        skip := true;
      } else if skip {
        if Ends(m, lines[k]) { skip := false; }
      } else {
        out := out + [lines[k]];
      }
    }
    assert lines[..|lines|] == lines;
    return Join(out, "\n");
  }

  ghost predicate NoBlock(m: Marks, lines: seq<string>) {
    forall i | 0 <= i < |lines| :: !Begins(m, lines[i])
  }

  lemma {:induction false} AllOutside(m: Marks, lines: seq<string>)
    requires NoBlock(m, lines)
    ensures Outside(m, lines) == lines && !Inside(m, lines)
  {
    if lines != [] {
      AllOutside(m, lines[..|lines| - 1]);
    }
  }

  /** A part of a text is found in the text. */
  lemma {:induction false} PartOf(s: string, sep: char, k: nat)
    requires k < |Split(s, sep)|
    ensures Contains(s, Split(s, sep)[k])
  {
    var part := Split(s, sep)[k];
    if s == "" {
      assert At(s, part, 0);
    } else if s[0] != sep && k == 0 {
      FirstPart(s, sep);
      assert At(s, part, 0);
    } else if s[0] == sep && k == 0 {
      assert At(s, part, 0);
    } else {
      var j := if s[0] == sep then k - 1 else k;
      PartOf(s[1..], sep, j);
      Further(s, part);
    }
  }

  lemma Further(s: string, part: string)
    requires s != "" && Contains(s[1..], part)
    ensures Contains(s, part)
  {
    var at :| 0 <= at <= |s| - 1 && At(s[1..], part, at);
    assert s[1..][at..at + |part|] == s[at + 1..at + 1 + |part|];
    assert At(s, part, at + 1);
  }

  lemma PrefixFound(s: string, part: string, head: string)
    requires Contains(s, part) && head <= part
    ensures Contains(s, head)
  {
    var at :| 0 <= at <= |s| && At(s, part, at);
    assert s[at..at + |head|] == s[at..at + |part|][..|head|];
    assert At(s, head, at);
  }

  lemma {:induction false} FirstPart(s: string, sep: char)
    ensures Split(s, sep)[0] <= s
  {
    if s != "" {
      FirstPart(s[1..], sep);
    }
  }

  lemma NothingToStrip(m: Marks, crontab: string)
    requires !Contains(crontab, m.begin)
    ensures Stripped(m, crontab) == crontab
  {
    var lines := Split(crontab, '\n');
    forall i | 0 <= i < |lines| ensures !Begins(m, lines[i]) {
      if m.begin <= lines[i] {
        PartOf(crontab, '\n', i);
        PrefixFound(crontab, lines[i], m.begin);
      }
    }
    AllOutside(m, lines);
    JoinSplit(crontab, '\n');
  }
}
