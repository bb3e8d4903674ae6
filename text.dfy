/** Field splitting, joining and line rendering on strings, with the semantics
    of Go's strings.Split and strings.Join for a one-character separator, and
    of a file written one line at a time with a newline after each line. */
module Text {

  /** Go's strings.Split(s, string([sep])): the fields between separators.
      There is always at least one field, and no field holds the separator. */
  function SplitOn(s: string, sep: char): (fields: seq<string>)
    ensures |fields| >= 1
    ensures forall i :: 0 <= i < |fields| ==> sep !in fields[i]
  {
    if s == [] then [""]
    else
      var rest := SplitOn(s[1..], sep);
      if s[0] == sep then [""] + rest
      else [[s[0]] + rest[0]] + rest[1..]
  }

  /** Go's strings.Join(parts, string([sep])): the first part comes first,
      followed by the separator when more parts follow. */
  function JoinWith(parts: seq<string>, sep: char): (r: string)
    ensures |parts| >= 1 ==> parts[0] <= r
    ensures |parts| >= 2 ==> |r| > |parts[0]| && r[|parts[0]|] == sep
  {
    if parts == [] then ""
    else if |parts| == 1 then parts[0]
    else parts[0] + [sep] + JoinWith(parts[1..], sep)
  }

  /** The text a file holds after each of `lines` was written followed by "\n":
      empty exactly when there are no lines, and otherwise starting with the
      first line and its newline and ending with a newline. */
  function Render(lines: seq<string>): (r: string)
    ensures lines == [] <==> r == ""
    ensures lines != [] ==> lines[0] + "\n" <= r && r[|r| - 1] == '\n'
  {
    if lines == [] then "" else lines[0] + "\n" + Render(lines[1..])
  }

  /** A separator-free prefix glues onto the first field of what follows it. */
  lemma {:induction false} SplitOnPrefix(x: string, t: string, sep: char)
    requires sep !in x
    ensures SplitOn(x + t, sep) == [x + SplitOn(t, sep)[0]] + SplitOn(t, sep)[1..]
  {
    if x == [] {
      var f := SplitOn(t, sep);
      assert x + t == t;
      assert x + f[0] == f[0];
      assert [f[0]] + f[1..] == f;
    } else {
      assert (x + t)[0] == x[0];
      assert (x + t)[1..] == x[1..] + t;
      SplitOnPrefix(x[1..], t, sep);
      assert [x[0]] + (x[1..] + SplitOn(t, sep)[0]) == x + SplitOn(t, sep)[0];
    }
  }

  /** A leading separator closes an empty first field. */
  lemma SplitOnSeparatorFirst(t: string, sep: char)
    ensures SplitOn([sep] + t, sep) == [""] + SplitOn(t, sep)
  {
    assert ([sep] + t)[0] == sep && ([sep] + t)[1..] == t;
  }

  /** Splitting undoes joining when no part holds the separator. */
  lemma {:induction false} SplitJoin(parts: seq<string>, sep: char)
    requires |parts| >= 1
    requires forall i :: 0 <= i < |parts| ==> sep !in parts[i]
    ensures SplitOn(JoinWith(parts, sep), sep) == parts
  {
    if |parts| == 1 {
      SplitOnPrefix(parts[0], "", sep);
      assert parts[0] + "" == parts[0];
    } else {
      var tail := JoinWith(parts[1..], sep);
      SplitJoin(parts[1..], sep);
      assert ([sep] + tail)[0] == sep && ([sep] + tail)[1..] == tail;
      assert SplitOn([sep] + tail, sep) == [""] + parts[1..];
      assert JoinWith(parts, sep) == parts[0] + ([sep] + tail);
      SplitOnPrefix(parts[0], [sep] + tail, sep);
      assert parts[0] + "" == parts[0];
    }
  }

  /** Joining undoes splitting, for every string. */
  lemma {:induction false} JoinSplit(s: string, sep: char)
    ensures JoinWith(SplitOn(s, sep), sep) == s
  {
    if s != [] {
      var rest := SplitOn(s[1..], sep);
      JoinSplit(s[1..], sep);
      if s[0] == sep {
        assert JoinWith([""] + rest, sep) == "" + [sep] + JoinWith(rest, sep);
      } else if |rest| == 1 {
        assert JoinWith([[s[0]] + rest[0]], sep) == [s[0]] + rest[0];
      } else {
        var fields := [[s[0]] + rest[0]] + rest[1..];
        assert fields[1..] == rest[1..];
        assert JoinWith(rest, sep) == rest[0] + [sep] + JoinWith(rest[1..], sep);
      }
    }
  }

  /** Writing a line after others appends that line and its newline. */
  lemma {:induction false} RenderSnoc(lines: seq<string>, line: string)
    ensures Render(lines + [line]) == Render(lines) + line + "\n"
  {
    if lines != [] {
      assert (lines + [line])[1..] == lines[1..] + [line];
      RenderSnoc(lines[1..], line);
    } else {
      assert [line][1..] == [];
    }
  }

  /** The written text splits at its newlines back into the lines, with the empty
      field after the final newline, provided no line holds a newline itself. */
  lemma {:induction false} RenderSplit(lines: seq<string>)
    requires forall i :: 0 <= i < |lines| ==> '\n' !in lines[i]
    ensures SplitOn(Render(lines), '\n') == lines + [""]
  {
    if lines != [] {
      var tail := Render(lines[1..]);
      RenderSplit(lines[1..]);
      SplitOnSeparatorFirst(tail, '\n');
      var f := SplitOn("\n" + tail, '\n');
      assert f[0] == "" && f[1..] == lines[1..] + [""];
      assert Render(lines) == lines[0] + ("\n" + tail);
      SplitOnPrefix(lines[0], "\n" + tail, '\n');
      assert lines[0] + "" == lines[0];
      assert [lines[0]] + (lines[1..] + [""]) == lines + [""];
    }
  }
}
