/** Project-name normalisation and the operating-system part of a packaging
    format identifier (cmd/packaging.go, removeDashesAndUnderscores and
    the comparison in assertCorrectOS). */
module Names {
  import opened Text

  /** strings.ReplaceAll(s, string([c]), ""): every occurrence of c deleted. */
  function RemoveChar(s: string, c: char): (r: string)
    ensures c !in r
    ensures forall x :: x in r ==> x in s
    ensures |r| <= |s|
  {
    if s == [] then []
    else if s[0] == c then RemoveChar(s[1..], c)
    else [s[0]] + RemoveChar(s[1..], c)
  }

  /** The project name with '-' removed, then '_' removed. */
  function RemoveDashesAndUnderscores(projectName: string): (r: string)
    ensures '-' !in r && '_' !in r
    ensures |r| <= |projectName|
  {
    RemoveChar(RemoveChar(projectName, '-'), '_')
  }

  /** A character the name normalisation keeps. */
  predicate Kept(c: char) { c != '-' && c != '_' }

  /** Reference definition: one left-to-right pass keeping the kept characters. */
  ghost function KeptChars(s: string): string
  {
    if s == [] then [] else (if Kept(s[0]) then [s[0]] else []) + KeptChars(s[1..])
  }

  lemma {:induction false} RemoveCharConcat(a: string, b: string, c: char)
    ensures RemoveChar(a + b, c) == RemoveChar(a, c) + RemoveChar(b, c)
  {
    if a == [] {
      assert a + b == b;
    } else {
      assert (a + b)[0] == a[0] && (a + b)[1..] == a[1..] + b;
      RemoveCharConcat(a[1..], b, c);
    }
  }

  lemma {:induction false} RemoveCharAbsent(s: string, c: char)
    requires c !in s
    ensures RemoveChar(s, c) == s
  {
    if s != [] {
      assert c !in s[1..] by { assert forall x :: x in s[1..] ==> x in s; }
      RemoveCharAbsent(s[1..], c);
    }
  }

  /** Normalisation distributes over concatenation. */
  lemma StripConcat(a: string, b: string)
    ensures RemoveDashesAndUnderscores(a + b)
         == RemoveDashesAndUnderscores(a) + RemoveDashesAndUnderscores(b)
  {
    RemoveCharConcat(a, b, '-');
    RemoveCharConcat(RemoveChar(a, '-'), RemoveChar(b, '-'), '_');
  }

  /** Normalisation is exactly the single pass that keeps every character other
      than '-' and '_', so the kept characters stay in their original order. */
  lemma {:induction false} StripIsKeptChars(s: string)
    ensures RemoveDashesAndUnderscores(s) == KeptChars(s)
  {
    if s != [] {
      assert s == [s[0]] + s[1..];
      StripConcat([s[0]], s[1..]);
      StripIsKeptChars(s[1..]);
    }
  }

  /** A name without '-' or '_' is left as it is. */
  lemma StripClean(s: string)
    requires '-' !in s && '_' !in s
    ensures RemoveDashesAndUnderscores(s) == s
  {
    RemoveCharAbsent(s, '-');
    RemoveCharAbsent(s, '_');
  }

  /** Normalising twice is normalising once. */
  lemma StripIdempotent(s: string)
    ensures RemoveDashesAndUnderscores(RemoveDashesAndUnderscores(s)) == RemoveDashesAndUnderscores(s)
  {
    StripClean(RemoveDashesAndUnderscores(s));
  }

  /** A name is a fixed point of the normalisation exactly when it has no '-' or '_'. */
  lemma StripFixedPoint(s: string)
    ensures RemoveDashesAndUnderscores(s) == s <==> ('-' !in s && '_' !in s)
  {
    if '-' !in s && '_' !in s {
      StripClean(s);
    }
  }

  /** strings.Split(format, "-")[0]: the operating system a format belongs to. */
  function OsOf(format: string): (os: string)
    ensures '-' !in os
  {
    SplitOn(format, '-')[0]
  }

  /** The OS part is the longest dash-free prefix: it is a prefix, holds no dash,
      and is followed by a dash or by the end of the identifier. */
  lemma {:induction false} OsOfIsPrefixBeforeDash(format: string)
    ensures OsOf(format) <= format
    ensures '-' !in OsOf(format)
    ensures |OsOf(format)| == |format| || format[|OsOf(format)|] == '-'
  {
    if format != [] && format[0] != '-' {
      OsOfIsPrefixBeforeDash(format[1..]);
      assert OsOf(format) == [format[0]] + OsOf(format[1..]);
    }
  }

  /** A host OS equals the OS part of a format exactly when it is the dash-free
      prefix of the format that is followed by a dash or by the end. */
  lemma OsOfIff(hostOs: string, format: string)
    ensures hostOs == OsOf(format)
        <==> (hostOs <= format && '-' !in hostOs
              && (|hostOs| == |format| || format[|hostOs|] == '-'))
  {
    var os := OsOf(format);
    OsOfIsPrefixBeforeDash(format);
    if hostOs <= format && '-' !in hostOs && (|hostOs| == |format| || format[|hostOs|] == '-') {
      assert hostOs == format[..|hostOs|] == os;
    }
  }

  /** Both packaging formats of this file belong to linux. */
  lemma LinuxFormats()
    ensures OsOf("linux-snap") == "linux"
    ensures OsOf("linux-deb") == "linux"
  {
    OsOfIff("linux", "linux-snap");
    OsOfIff("linux", "linux-deb");
  }
}
