/**
 What the licenser's questions answer on the texts that they are made for: build
 constraints, generated-code markers, and a header with the source's line ends.
 */
module Recognition {
  import opened Prelude
  import opened Text
  import opened Preamble
  import opened Licenser

  const GO: string := "//go:build"
  const PLUS: string := "// +build"
  const CODE: string := "// Code generated "
  const EDIT: string := " DO NOT EDIT."

  predicate Trimmed(s: string) {
    s != "" && !IsSpace(s[0]) && !IsSpace(s[|s| - 1])
  }

  lemma {:induction false} TrimmedIsItself(s: string)
    requires Trimmed(s)
    ensures TrimSpace(s) == s
  {
    TrimOfTrimmed(s, "");
    assert s + "" == s;
  }

  predicate EndsInText(s: string) {
    s != "" && !IsSpace(s[|s| - 1])
  }

  lemma {:induction false} GoConstraint(w: string)
    requires EndsInText(w)
    ensures IsBuildConstraint(GO) && IsBuildConstraint(GO + " " + w)
  {
    TrimmedIsItself(GO);
    TrimmedIsItself(GO + " " + w);
    assert GO + " " == "//go:build ";
  }

  lemma {:induction false} PlusConstraint(w: string)
    requires EndsInText(w)
    ensures IsBuildConstraint(PLUS) && IsBuildConstraint(PLUS + " " + w)
  {
    TrimmedIsItself(PLUS);
    TrimmedIsItself(PLUS + " " + w);
    assert PLUS + " " == "// +build ";
  }

  lemma {:induction false} NoGoConstraint(w: string)
    requires EndsInText(w) && !IsSpace(w[0])
    ensures !IsBuildConstraint(GO + w)
  {
    var t := GO + w;
    TrimmedIsItself(t);
    assert t[10] == w[0] && t[2] == 'g';
    assert "//go:build "[10] == ' ' && "// +build"[2] == ' ' && "// +build "[2] == ' ';
    assert |GO| == 10 && |t| > 10;
  }

  lemma {:induction false} NoPlusConstraint(w: string)
    requires EndsInText(w) && !IsSpace(w[0])
    ensures !IsBuildConstraint(PLUS + w)
  {
    var t := PLUS + w;
    TrimmedIsItself(t);
    assert t[9] == w[0] && t[2] == ' ';
    assert "// +build "[9] == ' ' && "//go:build"[2] == 'g' && "//go:build "[2] == 'g';
    assert |PLUS| == 9 && |t| > 9;
  }

  /**
   Both kinds of constraints are recognised, alone and with anything behind a
   space, and a longer word that starts like one is none.
   */
  lemma {:induction false} ConstraintsAreRecognised(w: string)
    requires EndsInText(w)
    ensures IsBuildConstraint("//go:build") && IsBuildConstraint("//go:build" + " " + w)
    ensures IsBuildConstraint("// +build") && IsBuildConstraint("// +build" + " " + w)
    ensures !IsSpace(w[0]) ==> !IsBuildConstraint("//go:build" + w) && !IsBuildConstraint("// +build" + w)
  {
    GoConstraint(w);
    PlusConstraint(w);
    if !IsSpace(w[0]) {
      NoGoConstraint(w);
      NoPlusConstraint(w);
    }
  }

  /** The marker of generated code is recognised, whatever the generator is called. */
  lemma {:induction false} MarkersAreRecognised(generator: string)
    ensures IsGeneratedMarker("// Code generated " + generator + " DO NOT EDIT.")
  {
    var t := CODE + generator + EDIT;
    assert t[0] == CODE[0] == '/' && t[|t| - 1] == EDIT[|EDIT| - 1] == '.';
    TrimmedIsItself(t);
    assert forall j :: 0 <= j < |CODE| ==> t[j] == CODE[j];
    assert forall j :: 0 <= j < |EDIT| ==> t[|t| - |EDIT| + j] == EDIT[j];
  }

  // ---- Line ends ---------------------------------------------------------

  /** Every line feed comes right after a carriage return. */
  predicate AllCrLf(s: string) {
    forall i :: 0 <= i < |s| && s[i] == '\n' ==> i > 0 && s[i - 1] == '\r'
  }

  function WithoutCr(s: string): string {
    if s == "" then "" else (if s[0] == '\r' then "" else [s[0]]) + WithoutCr(s[1..])
  }

  lemma {:induction false} LfTextIsNormal(s: string)
    requires '\r' !in s
    ensures ReplaceCrLf(s) == s
  {
    if s != "" {
      LfTextIsNormal(s[1..]);
    }
  }

  lemma {:induction false} WithoutCrCons(c: char, s: string)
    ensures WithoutCr([c] + s) == (if c == '\r' then "" else [c]) + WithoutCr(s)
  {
    assert ([c] + s)[1..] == s;
  }

  lemma {:induction false} CrLfCons(rest: string)
    requires AllCrLf(rest)
    ensures AllCrLf("\r\n" + rest) && WithoutCr("\r\n" + rest) == ['\n'] + WithoutCr(rest)
  {
    assert "\r\n" + rest == ['\r'] + (['\n'] + rest);
    WithoutCrCons('\r', ['\n'] + rest);
    WithoutCrCons('\n', rest);
  }

  lemma {:induction false} TextCons(c: char, rest: string)
    requires AllCrLf(rest) && c != '\n' && c != '\r'
    ensures AllCrLf([c] + rest) && WithoutCr([c] + rest) == [c] + WithoutCr(rest)
  {
    WithoutCrCons(c, rest);
  }

  lemma {:induction false} CrLfReplaces(s: string)
    requires '\r' !in s
    ensures AllCrLf(ReplaceLf(s, "\r\n")) && WithoutCr(ReplaceLf(s, "\r\n")) == s
  {
    if s != "" {
      var rest := ReplaceLf(s[1..], "\r\n");
      CrLfReplaces(s[1..]);
      assert s == [s[0]] + s[1..];
      if s[0] == '\n' {
        CrLfCons(rest);
      } else {
        TextCons(s[0], rest);
      }
    }
  }

  /** The header comes with the line ends that it is asked for, and is otherwise unchanged. */
  lemma {:induction false} HeaderTakesLineEnds(header: string)
    requires '\r' !in header
    ensures WithEol(header, "\n") == header
    ensures AllCrLf(WithEol(header, "\r\n")) && WithoutCr(WithEol(header, "\r\n")) == header
  {
    LfTextIsNormal(header);
    CrLfReplaces(header);
    assert "\r\n" != "\n" by {
      assert |"\r\n"| == 2;
    }
  }
}
