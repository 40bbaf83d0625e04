/** The header that the licenser puts in (main.go:487-501) is one that it recognises and removes again. */
module LicenserHeader {
  import opened Prelude
  import opened Text
  import opened Preamble
  import opened Licenser
  import opened LicenserProofs

  const USE: string := " you may not use" + " this file except" + " in compliance" + " with the License."
  const OBTAIN: string := " You may obtain" + " a copy of" + " the License" + " at"
  const URL: string := "     http://" + "www.apache.org" + "/licenses/" + "LICENSE-2.0"
  const UNLESS: string := " Unless required" + " by applicable law" + " or agreed to" + " in writing, software"
  const BASIS: string := " distributed under" + " the License is" + " distributed on" + " an \"AS IS\" BASIS,"
  const WITHOUT: string := (" WITHOUT WARRANTIES" + " OR CONDITIONS OF") + (" ANY KIND, either" + " express or implied.")
  const SEE: string := " See the License" + " for the specific" + " language governing" + " permissions and"

  const TEXTS: seq<string> := [
    " " + MARKER, "", " " + LICENSE + " (the \"License\");", USE, OBTAIN, "", URL, "",
    UNLESS, BASIS, WITHOUT, SEE, " " + TERMINATOR]

  const APACHE_HEADER: string := BlockOf(TEXTS)

  function LineOf(text: string): string {
    " *" + text + "\n"
  }

  function LinesOf(texts: seq<string>): string {
    if texts == [] then "" else LineOf(texts[0]) + LinesOf(texts[1..])
  }

  function BlockOf(texts: seq<string>): string {
    "/*" + "\n" + LinesOf(texts) + " */"
  }

  /** A text that cannot end the comment. */
  predicate TextOk(text: string) {
    '*' !in text && '\r' !in text && (text != "" ==> text[0] == ' ')
  }

  predicate TextsOk(texts: seq<string>) {
    forall i :: 0 <= i < |texts| ==> TextOk(texts[i])
  }

  lemma {:induction false} ScanInBlock(m: Mode, s: string)
    requires m.BlockText? && '*' !in s && (m.star && s != "" ==> s[0] != '/')
    ensures ModeAfter(m, s) == BlockText(m.text + s, s == "" && m.star) && Emit(m, s) == []
    decreases |s|
  {
    if s == "" {
      assert m.text + s == m.text;
    } else {
      var n := StepMode(m, s[0]);
      ScanInBlock(n, s[1..]);
      assert n.text + s[1..] == m.text + s;
    }
  }

  lemma {:induction false} ScanStar(t: string)
    ensures ModeAfter(BlockText(t, false), " *") == BlockText(t + " *", true)
    ensures Emit(BlockText(t, false), " *") == []
  {
    ScanInBlock(BlockText(t, false), " ");
    ScanSnoc(BlockText(t, false), " ", '*');
    assert " " + ['*'] == " *" && t + " " + ['*'] == t + " *";
  }

  lemma {:induction false} ScanHeaderLine(t: string, text: string)
    requires TextOk(text)
    ensures ModeAfter(BlockText(t, false), LineOf(text)) == BlockText(t + LineOf(text), false)
    ensures Emit(BlockText(t, false), LineOf(text)) == []
  {
    var m := BlockText(t, false);
    ScanStar(t);
    ScanInBlock(BlockText(t + " *", true), text + "\n");
    ScanAppend(m, " *", text + "\n");
    assert LineOf(text) == " *" + (text + "\n");
    Assoc(t, " *", text + "\n");
  }

  lemma {:induction false} ScanHeaderLines(t: string, texts: seq<string>)
    requires TextsOk(texts)
    ensures ModeAfter(BlockText(t, false), LinesOf(texts)) == BlockText(t + LinesOf(texts), false)
    ensures Emit(BlockText(t, false), LinesOf(texts)) == []
    decreases |texts|
  {
    if texts == [] {
      assert t + "" == t;
    } else {
      ScanHeaderLine(t, texts[0]);
      assert forall i :: 0 <= i < |texts[1..]| ==> texts[1..][i] == texts[i + 1];
      ScanHeaderLines(t + LineOf(texts[0]), texts[1..]);
      ScanAppend(BlockText(t, false), LineOf(texts[0]), LinesOf(texts[1..]));
      Assoc(t, LineOf(texts[0]), LinesOf(texts[1..]));
    }
  }

  lemma {:induction false} ScanClose(t: string)
    ensures ModeAfter(BlockText(t, false), " */") == Code
    ensures Emit(BlockText(t, false), " */") == [Comment(t + " */")]
  {
    ScanStar(t);
    ScanSnoc(BlockText(t, false), " *", '/');
    assert " *" + ['/'] == " */" && t + " *" + ['/'] == t + " */";
  }

  lemma {:induction false} ScanOpen()
    ensures ModeAfter(Code, "/*" + "\n") == BlockText("/*" + "\n", false) && Emit(Code, "/*" + "\n") == []
  {
    assert "/*" + "\n" == ['/', '*', '\n'];
    assert ['/', '*', '\n'][1..] == ['*', '\n'] && ['*', '\n'][1..] == ['\n'] && ['\n'][1..] == [];
    assert ModeAfter(Code, ['/', '*', '\n']) == ModeAfter(Slash, ['*', '\n']) == ModeAfter(BlockText("/*", false), ['\n']);
    assert ModeAfter(BlockText("/*", false), ['\n']) == BlockText("/*" + ['\n'], false);
    assert Emit(Code, ['/', '*', '\n']) == Emit(Slash, ['*', '\n']) == Emit(BlockText("/*", false), ['\n']) == [];
  }

  lemma {:induction false} LinesOfLfOnly(texts: seq<string>)
    requires TextsOk(texts)
    ensures '\r' !in LinesOf(texts)
  {
    if texts != [] {
      assert forall i :: 0 <= i < |texts[1..]| ==> texts[1..][i] == texts[i + 1];
      LinesOfLfOnly(texts[1..]);
      assert '\r' !in " *" && '\r' !in "\n";
    }
  }

  /** Any such block is one comment. */
  lemma {:induction false} BlockIsComment(texts: seq<string>)
    requires TextsOk(texts)
    ensures IsBlockComment(BlockOf(texts)) && '\r' !in BlockOf(texts)
  {
    var open, ls := "/*" + "\n", LinesOf(texts);
    ScanOpen();
    ScanHeaderLines(open, texts);
    ScanClose(open + ls);
    ScanAppend(Code, open, ls);
    ScanAppend(Code, open + ls, " */");
    LinesOfLfOnly(texts);
    assert '\r' !in open && '\r' !in " */";
    assert BlockOf(texts)[..2] == "/*";
  }

  lemma {:induction false} ContainsText(texts: seq<string>, i: nat, sub: string)
    requires i < |texts| && Contains(texts[i], sub)
    ensures Contains(LinesOf(texts), sub)
  {
    var line := LineOf(texts[0]);
    if i == 0 {
      ContainsWider(" *", texts[0], "\n", sub);
      assert "" + line == line;
      ContainsWider("", line, LinesOf(texts[1..]), sub);
    } else {
      ContainsText(texts[1..], i - 1, sub);
      var rest := LinesOf(texts[1..]);
      ContainsWider(line, rest, "", sub);
      assert line + rest + "" == line + rest;
    }
  }

  lemma {:induction false} BlockContains(texts: seq<string>, i: nat, a: string, sub: string, b: string)
    requires i < |texts| && texts[i] == a + sub + b
    ensures Contains(BlockOf(texts), sub)
  {
    assert OccursAt(sub, sub, 0);
    ContainsWider(a, sub, b, sub);
    ContainsText(texts, i, sub);
    ContainsWider("/*" + "\n", LinesOf(texts), " */", sub);
  }

  predicate Safe(text: string) {
    '*' !in text && '\r' !in text
  }

  lemma {:induction false} JoinOk(a: string, b: string, c: string, d: string)
    requires TextOk(a) && a != "" && Safe(b) && Safe(c) && Safe(d)
    ensures TextOk(a + b + c + d)
  {
  }

  lemma {:induction false} UseOk()
    ensures TextOk(USE)
  {
    JoinOk(" you may not use", " this file except", " in compliance", " with the License.");
  }

  lemma {:induction false} ObtainOk()
    ensures TextOk(OBTAIN)
  {
    JoinOk(" You may obtain", " a copy of", " the License", " at");
  }

  lemma {:induction false} UrlOk()
    ensures TextOk(URL)
  {
    JoinOk("     http://", "www.apache.org", "/licenses/", "LICENSE-2.0");
  }

  lemma {:induction false} UnlessOk()
    ensures TextOk(UNLESS)
  {
    JoinOk(" Unless required", " by applicable law", " or agreed to", " in writing, software");
  }

  lemma {:induction false} BasisOk()
    ensures TextOk(BASIS)
  {
    JoinOk(" distributed under", " the License is", " distributed on", " an \"AS IS\" BASIS,");
  }

  lemma {:induction false} PairOk(a: string, b: string)
    requires TextOk(a) && a != "" && Safe(b)
    ensures TextOk(a + b)
  {
  }

  lemma {:induction false} WithoutStartOk()
    ensures TextOk(" WITHOUT WARRANTIES" + " OR CONDITIONS OF")
  {
    PairOk(" WITHOUT WARRANTIES", " OR CONDITIONS OF");
  }

  lemma {:induction false} WithoutEndOk()
    ensures TextOk(" ANY KIND, either" + " express or implied.")
  {
    PairOk(" ANY KIND, either", " express or implied.");
  }

  lemma {:induction false} WithoutOk()
    ensures TextOk(WITHOUT)
  {
    WithoutStartOk();
    WithoutEndOk();
    PairOk(" WITHOUT WARRANTIES" + " OR CONDITIONS OF", " ANY KIND, either" + " express or implied.");
  }

  lemma {:induction false} SeeOk()
    ensures TextOk(SEE)
  {
    JoinOk(" See the License", " for the specific", " language governing", " permissions and");
  }

  lemma {:induction false} MarkerPieces()
    ensures MARKER == "Copyright Octelium Labs, " + "LLC. All rights reserved."
  {
  }

  lemma {:induction false} LicensePieces()
    ensures LICENSE == "Licensed under the Apache " + "License, Version 2.0"
  {
  }

  lemma {:induction false} TerminatorPieces()
    ensures TERMINATOR == "limitations under " + "the License."
  {
  }

  lemma {:induction false} PhraseOk(phrase: string, a: string, b: string, tail: string)
    requires phrase == a + b && Safe(a) && Safe(b) && Safe(tail)
    ensures TextOk(" " + phrase + tail)
  {
    JoinOk(" ", a, b, tail);
    Assoc(" ", a, b);
  }

  lemma {:induction false} MarkerOk()
    ensures TextOk(" " + MARKER)
  {
    MarkerPieces();
    PhraseOk(MARKER, "Copyright Octelium Labs, ", "LLC. All rights reserved.", "");
    assert " " + MARKER + "" == " " + MARKER;
  }

  lemma {:induction false} LicenseOk()
    ensures TextOk(" " + LICENSE + " (the \"License\");")
  {
    LicensePieces();
    PhraseOk(LICENSE, "Licensed under the Apache ", "License, Version 2.0", " (the \"License\");");
  }

  lemma {:induction false} TerminatorOk()
    ensures TextOk(" " + TERMINATOR)
  {
    TerminatorPieces();
    PhraseOk(TERMINATOR, "limitations under ", "the License.", "");
    assert " " + TERMINATOR + "" == " " + TERMINATOR;
  }

  lemma {:induction false} TextsAreOk()
    ensures TextsOk(TEXTS)
  {
    MarkerOk();
    LicenseOk();
    TerminatorOk();
    UseOk();
    ObtainOk();
    UrlOk();
    UnlessOk();
    BasisOk();
    WithoutOk();
    SeeOk();
  }

  /** The licenser's own header meets every condition that the theorems put on one. */
  lemma {:induction false} ApacheHeaderIsGood()
    ensures GoodHeader(APACHE_HEADER)
  {
    TextsAreOk();
    BlockIsComment(TEXTS);
    BlockContains(TEXTS, 0, " ", MARKER, "");
    BlockContains(TEXTS, 2, " ", LICENSE, " (the \"License\");");
    BlockContains(TEXTS, 12, " ", TERMINATOR, "");
  }
}
