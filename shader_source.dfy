/**
 * How `compileshaderdefs` assembles the text handed to the shader compiler:
 * the version string, a prelude of `#define` lines, and the file body, each
 * passed with its own length.
 *
 * The defines are an unordered map whose iteration order is unspecified; the
 * model takes its entries as a sequence in whatever order the map yields them.
 * Reading the file and compiling are outside the model: the body is an input.
 */
module ShaderSource {
  import opened Results
  import Particles

  /** `VERSION_STRING`, the default first piece. */
  const VersionString: string := "#version 430 core"

  /** The fixed text of a define line: `"#define "`, the separating space, the newline. */
  const DefineKeyword: string := "#define "

  /** One map entry: macro name and replacement text. */
  type Define = (string, string)

  /** The line streamed for one entry. */
  function DefineLine(d: Define): (r: string)
    ensures |r| == |d.0| + |d.1| + 10
  {
    DefineKeyword + d.0 + " " + d.1 + "\n"
  }

  /** The number of characters the lines of `defs` take up. */
  function DefinesSize(defs: seq<Define>): nat
  {
    if defs == [] then 0 else |defs[0].0| + |defs[0].1| + 10 + DefinesSize(defs[1..])
  }

  /** The define lines, one per entry, in iteration order. */
  function Lines(defs: seq<Define>): (r: string)
    ensures |r| == DefinesSize(defs)
  {
    if defs == [] then "" else DefineLine(defs[0]) + Lines(defs[1..])
  }

  /** The second piece: a newline ending the version line, then the define lines. */
  function Prelude(defs: seq<Define>): string
  {
    "\n" + Lines(defs)
  }

  lemma {:induction false} LinesAppend(a: seq<Define>, b: seq<Define>)
    ensures Lines(a + b) == Lines(a) + Lines(b)
  {
    if a != [] {
      assert (a + b)[0] == a[0];
      assert (a + b)[1..] == a[1..] + b;
      LinesAppend(a[1..], b);
    } else {
      assert a + b == b;
    }
  }

  /**
   * The loop streaming `std::endl` and then one line per entry into a
   * `stringstream`.
   */
  method BuildPrelude(defs: seq<Define>) returns (prelude: string)
    ensures prelude == Prelude(defs)
    ensures |prelude| == 1 + DefinesSize(defs)
    ensures defs == [] ==> prelude == "\n"
  {
    prelude := "\n";
    var i := 0;
    while i < |defs|
      invariant 0 <= i <= |defs|
      invariant prelude == "\n" + Lines(defs[..i])
    {
      LinesAppend(defs[..i], [defs[i]]);
      assert Lines([defs[i]]) == DefineLine(defs[i]) + Lines([]);
      assert defs[..i + 1] == defs[..i] + [defs[i]];
      prelude := prelude + DefineLine(defs[i]);
      i := i + 1;
    }
    assert defs[..i] == defs;
  }

  /** Where the line of entry `i` starts in the prelude. */
  function LineOffset(defs: seq<Define>, i: nat): nat
    requires i <= |defs|
  {
    1 + DefinesSize(defs[..i])
  }

  /** Each entry contributes exactly its own line, at its offset in the prelude. */
  lemma PreludeHasLine(defs: seq<Define>, i: nat)
    requires i < |defs|
    ensures LineOffset(defs, i) + |DefineLine(defs[i])| <= |Prelude(defs)|
    ensures Prelude(defs)[LineOffset(defs, i) .. LineOffset(defs, i) + |DefineLine(defs[i])|]
         == DefineLine(defs[i])
  {
    assert defs == defs[..i] + [defs[i]] + defs[i + 1..];
    LinesAppend(defs[..i] + [defs[i]], defs[i + 1..]);
    LinesAppend(defs[..i], [defs[i]]);
    assert Lines([defs[i]]) == DefineLine(defs[i]);
    var p := Prelude(defs);
    assert p == "\n" + Lines(defs[..i]) + DefineLine(defs[i]) + Lines(defs[i + 1..]);
  }

  // ---------------------------------------------------------------------
  // Reading a prelude back: the inverse of Prelude for well-formed entries.
  // ---------------------------------------------------------------------

  /** First position of `c` in `s`, or -1. */
  function IndexOf(s: string, c: char): (i: int)
    ensures -1 <= i < |s|
    ensures i >= 0 ==> s[i] == c && c !in s[..i]
    ensures i < 0 ==> c !in s
  {
    if s == [] then -1
    else if s[0] == c then 0
    else
      var j := IndexOf(s[1..], c);
      assert s == [s[0]] + s[1..];
      assert j >= 0 ==> s[..j + 1] == [s[0]] + s[1..][..j];
      if j < 0 then -1 else j + 1
  }

  lemma IndexOfAfter(a: string, c: char, b: string)
    requires c !in a
    ensures IndexOf(a + [c] + b, c) == |a|
  {
    var t := a + [c] + b;
    var i := IndexOf(t, c);
    assert t[|a|] == c;
    assert forall k :: 0 <= k < |a| ==> t[k] == a[k];
    assert forall k :: 0 <= k < i ==> t[..i][k] == t[k];
  }

  /** A name with no space or newline and a value with no newline. */
  predicate WellFormed(d: Define)
  {
    ' ' !in d.0 && '\n' !in d.0 && '\n' !in d.1
  }

  /** Split text into define lines, failing on anything that is not one. */
  function ParseLines(s: string): Option<seq<Define>>
    decreases |s|
  {
    if s == [] then Some([])
    else if |s| < |DefineKeyword| || s[..|DefineKeyword|] != DefineKeyword then None
    else
      var rest := s[|DefineKeyword|..];
      var nl := IndexOf(rest, '\n');
      if nl < 0 then None
      else
        var line := rest[..nl];
        var sp := IndexOf(line, ' ');
        if sp < 0 then None
        else
          match ParseLines(rest[nl + 1..])
          case None => None
          case Some(tail) => Some([(line[..sp], line[sp + 1..])] + tail)
  }

  /** Read a prelude: the leading newline, then define lines. */
  function ParsePrelude(p: string): Option<seq<Define>>
  {
    if |p| > 0 && p[0] == '\n' then ParseLines(p[1..]) else None
  }

  /** A well-formed line at the head of the text is read back as its entry. */
  lemma ParseLineHead(d: Define, tail: string)
    requires WellFormed(d)
    ensures ParseLines(DefineLine(d) + tail)
         == match ParseLines(tail) case None => None case Some(t) => Some([d] + t)
  {
    var kv := d.0 + [' '] + d.1;
    var s := DefineLine(d) + tail;
    assert s == DefineKeyword + (kv + ['\n'] + tail);
    var rest := s[|DefineKeyword|..];
    assert rest == kv + ['\n'] + tail;
    IndexOfAfter(kv, '\n', tail);
    var line := rest[..|kv|];
    assert line == kv;
    IndexOfAfter(d.0, ' ', d.1);
    assert line[..|d.0|] == d.0 && line[|d.0| + 1..] == d.1;
    assert rest[|kv| + 1..] == tail;
  }

  lemma {:induction false} ParseLinesRoundTrip(defs: seq<Define>)
    requires forall i :: 0 <= i < |defs| ==> WellFormed(defs[i])
    ensures ParseLines(Lines(defs)) == Some(defs)
  {
    if defs != [] {
      ParseLinesRoundTrip(defs[1..]);
      ParseLineHead(defs[0], Lines(defs[1..]));
      assert [defs[0]] + defs[1..] == defs;
    }
  }

  /** Reading back an assembled prelude recovers exactly the entries, in order. */
  lemma PreludeRoundTrip(defs: seq<Define>)
    requires forall i :: 0 <= i < |defs| ==> WellFormed(defs[i])
    ensures ParsePrelude(Prelude(defs)) == Some(defs)
  {
    assert Prelude(defs)[1..] == Lines(defs);
    ParseLinesRoundTrip(defs);
  }

  // ---------------------------------------------------------------------
  // The three buffers handed to the compiler.
  // ---------------------------------------------------------------------

  /** The string array and length array passed to `glShaderSource`. */
  datatype Sources = Sources(buffers: seq<string>, lengths: seq<int>)

  /** Every buffer is passed with its own length. */
  predicate LengthsMatch(src: Sources)
  {
    |src.buffers| == |src.lengths| && forall i :: 0 <= i < |src.buffers| ==> src.lengths[i] == |src.buffers[i]|
  }

  /** The text the compiler sees: the buffers concatenated in order. */
  function Text(src: Sources): string
    requires |src.buffers| == 3
  {
    src.buffers[0] + src.buffers[1] + src.buffers[2]
  }

  /**
   * `compileshaderdefs`, the part before the compile call: version string,
   * prelude and file body, each with its length.
   */
  method CompileShaderDefs(verstr: string, defs: seq<Define>, body: string) returns (src: Sources)
    ensures |src.buffers| == 3 && LengthsMatch(src)
    ensures src.buffers[0] == verstr && src.buffers[1] == Prelude(defs) && src.buffers[2] == body
    ensures src.lengths[1] == 1 + DefinesSize(defs)
  {
    var defsrc := BuildPrelude(defs);
    src := Sources([verstr, defsrc, body], [|verstr|, |defsrc|, |body|]);
  }

  /** `compileshader`: the same with an empty define map, so the prelude is one newline. */
  method CompileShader(verstr: string, body: string) returns (src: Sources)
    ensures |src.buffers| == 3 && LengthsMatch(src)
    ensures src.buffers == [verstr, "\n", body]
    ensures Text(src) == verstr + "\n" + body
  {
    src := CompileShaderDefs(verstr, [], body);
    assert Prelude([]) == "\n";
    assert src.buffers == [src.buffers[0], src.buffers[1], src.buffers[2]];
  }

  /**
   * In the compiled text the version line is closed by a newline, each define
   * line sits after it and wholly before the body, and the body ends the text.
   */
  lemma DefinePlacement(verstr: string, defs: seq<Define>, body: string, i: nat)
    requires i < |defs|
    ensures var t := verstr + Prelude(defs) + body;
      var o := |verstr| + LineOffset(defs, i);
      && t[..|verstr| + 1] == verstr + "\n"
      && |verstr| < o && o + |DefineLine(defs[i])| <= |t| - |body|
      && t[o .. o + |DefineLine(defs[i])|] == DefineLine(defs[i])
      && t[|t| - |body|..] == body
  {
    PreludeHasLine(defs, i);
    var t := verstr + Prelude(defs) + body;
    var o := |verstr| + LineOffset(defs, i);
    var n := |DefineLine(defs[i])|;
    assert t[o .. o + n] == Prelude(defs)[LineOffset(defs, i) .. LineOffset(defs, i) + n];
  }

  /**
   * Every shader `main` compiles takes the default version string, so its
   * text opens with the line `#version 430 core`, closed by the prelude's
   * newline, whatever the defines and the body.
   */
  lemma DefaultVersionLine(defs: seq<Define>, body: string)
    ensures var t := VersionString + Prelude(defs) + body;
      |t| >= 18 && t[..18] == "#version 430 core\n"
  {
    var t := VersionString + Prelude(defs) + body;
    assert |VersionString| == 17;
    assert t[..18] == VersionString + "\n" by {
      assert t == VersionString + "\n" + Lines(defs) + body;
    }
  }

  // ---------------------------------------------------------------------
  // The define map `main` passes to the stepping shader.
  // ---------------------------------------------------------------------

  function DigitChar(n: nat): char
    requires n < 10
  {
    "0123456789"[n]
  }

  /** What streaming an unsigned integer into a `stringstream` produces. */
  function Decimal(n: nat): (s: string)
    ensures |s| >= 1 && forall k :: 0 <= k < |s| ==> '0' <= s[k] <= '9'
  {
    if n < 10 then [DigitChar(n)] else Decimal(n / 10) + [DigitChar(n % 10)]
  }

  /** The value a string of decimal digits denotes. */
  function DecimalValue(s: string): nat
  {
    if s == [] then 0
    else
      var c := s[|s| - 1];
      DecimalValue(s[..|s| - 1]) * 10 + (if '0' <= c <= '9' then c as int - '0' as int else 0)
  }

  /** Printing then reading a natural gives it back. */
  lemma {:induction false} DecimalRoundTrip(n: nat)
    ensures DecimalValue(Decimal(n)) == n
  {
    if n >= 10 {
      DecimalRoundTrip(n / 10);
      var s := Decimal(n);
      assert s[..|s| - 1] == Decimal(n / 10);
    }
  }

  /** `defs["nparticles"]` and `defs["szparticle"]` as set up in `main`. */
  function MainDefineMap(): map<string, string>
  {
    map["nparticles" := Decimal(Particles.NParticles), "szparticle" := Decimal(Particles.SzParticle)]
  }

  /** The two values are streamed as the digits "8192" and "16". */
  lemma MainDefineValues()
    ensures MainDefineMap() == map["nparticles" := "8192", "szparticle" := "16"]
  {
    assert Decimal(8) == "8";
    assert Decimal(81) == "81";
    assert Decimal(819) == "819";
    assert Decimal(8192) == "8192";
    assert Decimal(1) == "1";
    assert Decimal(16) == "16";
  }

  /** Iteration orders of a map: its entries, each key once. */
  predicate Enumerates(defs: seq<Define>, m: map<string, string>)
  {
    && |defs| == |m|
    && (forall i :: 0 <= i < |defs| ==> defs[i].0 in m && m[defs[i].0] == defs[i].1)
    && (forall i, j :: 0 <= i < j < |defs| ==> defs[i].0 != defs[j].0)
  }

  /** How many entries carry the name `k`. */
  function CountName(defs: seq<Define>, k: string): nat
  {
    if defs == [] then 0 else (if defs[0].0 == k then 1 else 0) + CountName(defs[1..], k)
  }

  lemma {:induction false} CountNameDistinct(defs: seq<Define>, i: nat)
    requires i < |defs|
    requires forall a, b :: 0 <= a < b < |defs| ==> defs[a].0 != defs[b].0
    ensures CountName(defs, defs[i].0) == 1
  {
    if i == 0 {
      CountNameAbsent(defs[1..], defs[0].0);
    } else {
      CountNameDistinct(defs[1..], i - 1);
    }
  }

  lemma {:induction false} CountNameAbsent(defs: seq<Define>, k: string)
    requires forall a :: 0 <= a < |defs| ==> defs[a].0 != k
    ensures CountName(defs, k) == 0
  {
    if defs != [] {
      CountNameAbsent(defs[1..], k);
    }
  }

  /** A map enumerated without repeats names each of its keys exactly once. */
  lemma {:induction false} EnumeratesOnce(defs: seq<Define>, m: map<string, string>, k: string)
    requires Enumerates(defs, m) && k in m
    ensures CountName(defs, k) == 1
  {
    NamesCover(defs, m);
    var a :| 0 <= a < |defs| && defs[a].0 == k;
    CountNameDistinct(defs, a);
  }

  /** Distinct names, as many as the keys, all keys: every key is named. */
  lemma NamesCover(defs: seq<Define>, m: map<string, string>)
    requires Enumerates(defs, m)
    ensures m.Keys <= set i | 0 <= i < |defs| :: defs[i].0
  {
    var names := set i | 0 <= i < |defs| :: defs[i].0;
    assert names <= m.Keys;
    DistinctNamesCount(defs);
    var missing := m.Keys - names;
    assert m.Keys == names + missing;
    assert names * missing == {};
    assert |missing| == 0;
  }

  lemma {:induction false} DistinctNamesCount(defs: seq<Define>)
    requires forall a, b :: 0 <= a < b < |defs| ==> defs[a].0 != defs[b].0
    ensures |set i | 0 <= i < |defs| :: defs[i].0| == |defs|
  {
    if defs != [] {
      var rest := defs[1..];
      DistinctNamesCount(rest);
      var names := set i | 0 <= i < |defs| :: defs[i].0;
      var restNames := set i | 0 <= i < |rest| :: rest[i].0;
      assert names == {defs[0].0} + restNames by {
        forall k | k in names ensures k in {defs[0].0} + restNames {
          var i :| 0 <= i < |defs| && defs[i].0 == k;
          if i > 0 { assert rest[i - 1].0 == k; }
        }
        forall k | k in restNames ensures k in names {
          var i :| 0 <= i < |rest| && rest[i].0 == k;
          assert defs[i + 1].0 == k;
        }
      }
      assert defs[0].0 !in restNames;
    }
  }

  lemma MainDefinesWellFormed(defs: seq<Define>)
    requires Enumerates(defs, MainDefineMap())
    ensures forall i :: 0 <= i < |defs| ==> WellFormed(defs[i])
  {
    var m := map["nparticles" := "8192", "szparticle" := "16"];
    MainDefineValues();
    forall i | 0 <= i < |defs| ensures WellFormed(defs[i]) {
      var d := defs[i];
      assert d.0 in m;
      if d.0 == "nparticles" {
        assert d == ("nparticles", "8192");
      } else {
        assert d == ("szparticle", "16");
      }
    }
  }

  /**
   * Whatever order the map yields its two entries in, the prelude of the
   * stepping shader reads back as its entries, among which `nparticles` is
   * defined exactly once, as 8192, and `szparticle` exactly once, as 16.
   */
  lemma MainDefinesOnce(defs: seq<Define>)
    requires Enumerates(defs, MainDefineMap())
    ensures ParsePrelude(Prelude(defs)) == Some(defs)
    ensures CountName(defs, "nparticles") == 1 && CountName(defs, "szparticle") == 1
    ensures forall i :: 0 <= i < |defs| && defs[i].0 == "nparticles" ==> DecimalValue(defs[i].1) == 8192
    ensures forall i :: 0 <= i < |defs| && defs[i].0 == "szparticle" ==> DecimalValue(defs[i].1) == 16
  {
    var m := MainDefineMap();
    MainDefineValues();
    DecimalRoundTrip(Particles.NParticles);
    DecimalRoundTrip(Particles.SzParticle);
    MainDefinesWellFormed(defs);
    PreludeRoundTrip(defs);
    EnumeratesOnce(defs, m, "nparticles");
    EnumeratesOnce(defs, m, "szparticle");
  }
}
