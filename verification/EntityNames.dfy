/** Entity names: what ValidateEntityName accepts, and what the tokenizer takes whole. */
module EntityNames {
  import opened Text
  import opened Lexer
  import opened Layout
  import opened LayoutLexing
  import opened Canonical
  import opened Devices

  lemma NameChar(name: string, i: nat)
    requires ValidName(name) && i < |name|
    ensures IsDelim(name[i]) <==> name[i] == '\r'
  {
    assert name[i] in name;
  }

  lemma WholeName(name: string, rest: string)
    requires ValidName(name) && '\r' !in name && Soft(rest)
    ensures BareOk(name) && FirstStep(name + rest) == Emit(Word, name, |name|)
  {
    hide FirstStep, Soft;
    forall c | c in name ensures !IsDelim(c) {
      var i :| 0 <= i < |name| && name[i] == c;
      NameChar(name, i);
    }
    FirstOfBare(name, rest);
  }

  lemma CutName(name: string, rest: string)
    requires ValidName(name) && '\r' in name
    ensures FirstStep(name + rest) != Emit(Word, name, |name|)
  {
    hide ValidName, IsDelim, WordLen, QuotedLen, LineLen;
    var s := name + rest;
    var k: nat :| k < |name| && name[k] == '\r';
    NameChar(name, k);
    NameChar(name, 0);
    assert s[k] == '\r' && s[0] == name[0];
    WordLenOk(s);
    if |name| > 1 {
      NameChar(name, 1);
      NotEqualSign(name, 1);
    }
    NotEqualSign(name, 0);
  }

  lemma NotEqualSign(name: string, i: nat)
    requires ValidName(name) && i < |name|
    ensures name[i] !in "=\"#{}()\n"
  {
    assert name[i] in name;
  }

  /** An accepted name is read back as one word exactly when it holds no carriage return: the tokenizer takes that
      as a blank, but ValidateEntityName lets it through. */
  lemma NameIsOneWord(name: string, rest: string)
    requires ValidName(name) && Soft(rest)
    ensures FirstStep(name + rest) == Emit(Word, name, |name|) <==> '\r' !in name
    ensures '\r' !in name ==> BareOk(name) && Words(name) == Some([Bare(name)])
  {
    hide FirstStep, BareOk, ValidName;
    if '\r' !in name {
      WholeName(name, rest);
      WholeName(name, "");
      assert name + "" == name;
    } else {
      CutName(name, rest);
    }
  }

  /** A name with a carriage return in the middle becomes two words. */
  lemma SplitName()
    ensures ValidName("a\rb") && Scan("a\rb", 1).toks == [Token(Word, "a", 1), Token(Word, "b", 1), Token(EOF, "", 1)]
  {
    var s := "a\rb";
    assert s[1..] == "\rb" && s[1..][1..] == "b" && "b"[1..] == "";
    assert WordLen(s) == 1 && WordLen("b") == 1;
    assert FirstStep(s) == Emit(Word, "a", 1) by {
      assert s[..1] == "a";
    }
    assert FirstStep("\rb") == Step.Blank;
    assert FirstStep("b") == Emit(Word, "b", 1) by {
      assert "b"[..1] == "b";
    }
    assert Scan("", 1).toks == [Token(EOF, "", 1)];
    assert Scan("b", 1).toks == [Token(Word, "b", 1), Token(EOF, "", 1)];
    assert Scan("\rb", 1) == Scan("b", 1);
  }
}
