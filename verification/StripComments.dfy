/**
 * `strip_js_comments`: a tokenizer that knows only four comment-related symbols, and a stripper that
 * drops line comments and nested block comments from the token stream.
 */
module StripComments {
  const LINE_COMMENT := "//"
  const BLOCK_OPEN := "/*"
  const BLOCK_CLOSE := "*/"
  const NEWLINE := "\n"

  /** The length of the symbol the text starts with, or 0. */
  function SymbolAt(s: string): (n: nat)
    ensures n <= |s|
  {
    if LINE_COMMENT <= s || BLOCK_OPEN <= s || BLOCK_CLOSE <= s then 2
    else if NEWLINE <= s then 1
    else 0
  }

  /** Where the leftmost symbol starts, or the length of the text. */
  function FindSymbol(s: string): (i: nat)
    ensures i <= |s|
  {
    if s == "" || SymbolAt(s) > 0 then 0 else FindSymbol(s[1..]) + 1
  }

  lemma {:induction false} SymbolIsLeftmost(s: string, j: nat)
    requires j <= FindSymbol(s)
    ensures if j < FindSymbol(s) then SymbolAt(s[j..]) == 0
            else j < |s| ==> SymbolAt(s[j..]) > 0
  {
    if s != "" && SymbolAt(s) == 0 && j > 0 {
      SymbolIsLeftmost(s[1..], j - 1);
      assert s[1..][j - 1..] == s[j..];
    } else {
      assert s[0..] == s;
    }
  }

  /** The pieces of the text, one at a time: a symbol, or what stands before the next one. */
  function Tokens(s: string): seq<string>
    decreases |s|
  {
    if s == "" then []
    else
      var end := FirstPiece(s);
      [s[..end]] + Tokens(s[end..])
  }

  function FirstPiece(s: string): (end: nat)
    requires s != ""
    ensures 0 < end <= |s|
  {
    if SymbolAt(s) > 0 then SymbolAt(s) else PlainLength(s)
  }

  function PlainLength(s: string): (i: nat)
    requires s != "" && SymbolAt(s) == 0
    ensures 0 < i <= |s| && i == FindSymbol(s)
  {
    FindSymbol(s)
  }

  lemma {:induction false} SymbolNow(rest: string, i: nat)
    requires i < |rest| && i == FindSymbol(rest)
    ensures SymbolAt(rest[i..]) > 0
    ensures Tokens(rest[i..]) ==
      [rest[i..i + SymbolAt(rest[i..])]] + Tokens(rest[i + SymbolAt(rest[i..])..])
  {
    SymbolIsLeftmost(rest, i);
    SymbolFirst(rest[i..]);
    SliceAgain(rest, i, SymbolAt(rest[i..]));
  }

  lemma {:induction false} SliceAgain(s: string, i: nat, n: nat)
    requires i + n <= |s|
    ensures s[i..][..n] == s[i..i + n] && s[i..][n..] == s[i + n..]
  {
  }

  lemma {:induction false} PlainNow(rest: string, i: nat)
    requires i < |rest| && i == FindSymbol(rest)
    ensures if i > 0 then Tokens(rest) == [rest[..i]] + Tokens(rest[i..]) else rest[i..] == rest
  {
    SymbolIsLeftmost(rest, 0);
    assert rest[0..] == rest;
  }

  lemma {:induction false} Regroup(before: seq<string>, a: seq<string>, b: seq<string>, after: seq<string>)
    ensures before + (a + (b + after)) == before + a + b + after
  {
  }

  lemma {:induction false} NoSymbolLeft(rest: string)
    requires rest != "" && FindSymbol(rest) == |rest|
    ensures Tokens(rest) == [rest]
  {
    assert rest[..|rest|] == rest && rest[|rest|..] == "";
  }

  method TokenizeJS(text: string) returns (tokens: seq<string>)
    ensures tokens == Tokens(text)
  {
    var rest := text;
    tokens := [];
    while |rest| > 0
      invariant tokens + Tokens(rest) == Tokens(text)
      decreases |rest|
    {
      var minIndex := FindSymbol(rest);
      if minIndex == |rest| {
        NoSymbolLeft(rest);
        tokens := tokens + [rest];
        return;
      }
      SymbolNow(rest, minIndex);
      PlainNow(rest, minIndex);
      var endIndex := minIndex + SymbolAt(rest[minIndex..]);
      ghost var plain := if minIndex > 0 then [rest[..minIndex]] else [];
      Regroup(tokens, plain, [rest[minIndex..endIndex]], Tokens(rest[endIndex..]));
      if minIndex > 0 {
        tokens := tokens + [rest[..minIndex]];
      }
      tokens := tokens + [rest[minIndex..endIndex]];
      rest := rest[endIndex..];
    }
  }

  function Join(tokens: seq<string>): string {
    if tokens == [] then "" else tokens[0] + Join(tokens[1..])
  }

  lemma {:induction false} TokensJoinToText(s: string)
    ensures Join(Tokens(s)) == s
    decreases |s|
  {
    if s != "" {
      var end := FirstPiece(s);
      TokensJoinToText(s[end..]);
      assert s == s[..end] + s[end..];
      assert Tokens(s)[1..] == Tokens(s[end..]);
    }
  }

  // ---------------------------------------------------------------------------------------------
  // Stripping a token stream

  /** What is kept of the tokens, outside a comment. */
  function Code(tokens: seq<string>): string
    decreases |tokens|
  {
    if tokens == [] then ""
    else if tokens[0] == LINE_COMMENT then Line(tokens[1..])
    else if tokens[0] == BLOCK_OPEN then Block(tokens[1..], 1)
    else tokens[0] + Code(tokens[1..])
  }

  function Line(tokens: seq<string>): string
    decreases |tokens|
  {
    if tokens == [] then ""
    else if tokens[0] == NEWLINE then Code(tokens[1..])
    else Line(tokens[1..])
  }

  function Block(tokens: seq<string>, nesting: nat): string
    requires nesting > 0
    decreases |tokens|
  {
    if tokens == [] then ""
    else if tokens[0] == BLOCK_OPEN then Block(tokens[1..], nesting + 1)
    else if tokens[0] == BLOCK_CLOSE then
      if nesting == 1 then Code(tokens[1..]) else Block(tokens[1..], nesting - 1)
    else Block(tokens[1..], nesting)
  }

  method StripJSComments(text: string) returns (result: string)
    ensures result == Scan(text)
  {
    var stream := TokenizeJS(text);
    result := "";
    var i := 0;
    assert stream[0..] == stream;
    while i < |stream|
      invariant 0 <= i <= |stream|
      invariant Code(stream) == result + Code(stream[i..])
    {
      var t := stream[i];
      ghost var at := stream[i..];
      assert stream[i + 1..] == at[1..];
      i := i + 1;
      if t == LINE_COMMENT {
        while i < |stream|
          invariant 0 < i <= |stream|
          invariant Code(at) == Line(stream[i..])
        {
          assert stream[i + 1..] == stream[i..][1..];
          i := i + 1;
          if stream[i - 1] == NEWLINE {
            break;
          }
        }
        assert Code(at) == Code(stream[i..]);
      } else if t == BLOCK_OPEN {
        var nesting := 1;
        while i < |stream|
          invariant 0 < i <= |stream| && nesting > 0
          invariant Code(at) == Block(stream[i..], nesting)
        {
          var t2 := stream[i];
          assert stream[i + 1..] == stream[i..][1..];
          i := i + 1;
          if t2 == BLOCK_OPEN {
            nesting := nesting + 1;
          } else if t2 == BLOCK_CLOSE {
            nesting := nesting - 1;
            if nesting == 0 {
              break;
            }
          }
        }
        assert Code(at) == Code(stream[i..]);
      } else {
        result := result + t;
      }
    }
    CodeIsScan(text);
  }

  // ---------------------------------------------------------------------------------------------
  // An independent definition: one pass over the characters

  function Scan(s: string): string
    decreases |s|
  {
    if s == "" then ""
    else if LINE_COMMENT <= s then ScanLine(s[2..])
    else if BLOCK_OPEN <= s then ScanBlock(s[2..], 1)
    else if BLOCK_CLOSE <= s then BLOCK_CLOSE + Scan(s[2..])
    else [s[0]] + Scan(s[1..])
  }

  /** Inside a line comment: everything up to and including the next newline is dropped. */
  function ScanLine(s: string): string
    decreases |s|
  {
    if s == "" then ""
    else if s[0] == '\n' then Scan(s[1..])
    else ScanLine(s[1..])
  }

  /** Inside `nesting` block comments. A double slash is taken as a unit here too. */
  function ScanBlock(s: string, nesting: nat): string
    requires nesting > 0
    decreases |s|
  {
    if s == "" then ""
    else if LINE_COMMENT <= s then ScanBlock(s[2..], nesting)
    else if BLOCK_OPEN <= s then ScanBlock(s[2..], nesting + 1)
    else if BLOCK_CLOSE <= s then
      if nesting == 1 then Scan(s[2..]) else ScanBlock(s[2..], nesting - 1)
    else ScanBlock(s[1..], nesting)
  }

  lemma {:induction false} SymbolText(s: string)
    requires SymbolAt(s) > 0
    ensures s == s[..SymbolAt(s)] + s[SymbolAt(s)..]
    ensures s[..SymbolAt(s)] ==
      if LINE_COMMENT <= s then LINE_COMMENT
      else if BLOCK_OPEN <= s then BLOCK_OPEN
      else if BLOCK_CLOSE <= s then BLOCK_CLOSE
      else NEWLINE
  {
  }

  /** The tokens of a text that starts with a symbol. */
  lemma {:induction false} SymbolFirst(s: string)
    requires SymbolAt(s) > 0
    ensures Tokens(s) == [s[..SymbolAt(s)]] + Tokens(s[SymbolAt(s)..])
    ensures Tokens(s)[1..] == Tokens(s[SymbolAt(s)..])
    ensures Tokens(s)[0] ==
      if LINE_COMMENT <= s then LINE_COMMENT
      else if BLOCK_OPEN <= s then BLOCK_OPEN
      else if BLOCK_CLOSE <= s then BLOCK_CLOSE
      else NEWLINE
  {
    SymbolText(s);
  }

  /** The text goes on with a plain character after its first one. */
  predicate Glued(s: string)
    requires s != ""
  {
    s[1..] != "" && SymbolAt(s[1..]) == 0
  }

  /** The tokens of a text that starts with another character: it is glued to the next plain piece. */
  lemma {:induction false} PlainFirst(s: string)
    requires s != "" && SymbolAt(s) == 0
    ensures var rest := Tokens(s[1..]);
      && Tokens(s) != [] && Plain(Tokens(s)[0])
      && (Glued(s) ==> rest != [] && Plain(rest[0])
                       && Tokens(s)[0] == [s[0]] + rest[0] && Tokens(s)[1..] == rest[1..])
      && (!Glued(s) ==> Tokens(s)[0] == [s[0]] && Tokens(s)[1..] == rest)
  {
    var t := s[1..];
    PlainPiece(s);
    var i := FindSymbol(t);
    assert FindSymbol(s) == i + 1;
    SliceAgain(s, 1, i);
    assert s[..i + 1] == [s[0]] + s[1..1 + i];
    if Glued(s) {
      PlainPiece(t);
    } else {
      assert t[0..] == t && i == 0;
    }
  }

  predicate Plain(token: string) {
    token != LINE_COMMENT && token != BLOCK_OPEN && token != BLOCK_CLOSE && token != NEWLINE
  }

  lemma {:induction false} PlainPiece(s: string)
    requires s != "" && SymbolAt(s) == 0
    ensures FindSymbol(s) > 0 && Plain(s[..FindSymbol(s)])
    ensures Tokens(s) != [] && Tokens(s)[0] == s[..FindSymbol(s)] && Tokens(s)[1..] == Tokens(s[FindSymbol(s)..])
  {
    var i := FindSymbol(s);
    assert s[..i] <= s;
  }

  lemma {:induction false} CodeIsScan(s: string)
    ensures Code(Tokens(s)) == Scan(s)
    decreases |s|
  {
    if s != "" {
      if SymbolAt(s) > 0 {
        SymbolFirst(s);
        var rest := s[SymbolAt(s)..];
        if LINE_COMMENT <= s {
          LineIsScan(rest);
        } else if BLOCK_OPEN <= s {
          BlockIsScan(rest, 1);
        } else {
          SymbolText(s);
          CodeIsScan(rest);
        }
      } else {
        PlainFirst(s);
        CodeIsScan(s[1..]);
        if Glued(s) {
          GluedCode(s);
        }
      }
    }
  }

  lemma {:induction false} GluedCode(s: string)
    requires s != "" && SymbolAt(s) == 0 && Glued(s)
    ensures Code(Tokens(s)) == [s[0]] + Code(Tokens(s[1..]))
  {
    PlainFirst(s);
    var tokens, rest := Tokens(s), Tokens(s[1..]);
    PlainCode(tokens);
    PlainCode(rest);
    Associates([s[0]], rest[0], Code(rest[1..]));
  }

  lemma {:induction false} PlainCode(tokens: seq<string>)
    requires tokens != [] && Plain(tokens[0])
    ensures Code(tokens) == tokens[0] + Code(tokens[1..])
  {
  }

  lemma {:induction false} Associates(a: string, b: string, c: string)
    ensures (a + b) + c == a + (b + c)
  {
  }

  lemma {:induction false} LineIsScan(s: string)
    ensures Line(Tokens(s)) == ScanLine(s)
    decreases |s|
  {
    if s != "" {
      if SymbolAt(s) > 0 {
        SymbolFirst(s);
        if NEWLINE <= s {
          CodeIsScan(s[1..]);
        } else {
          assert s[1..][1..] == s[2..];
          assert s[1] != '\n' && ScanLine(s) == ScanLine(s[2..]);
          LineIsScan(s[2..]);
        }
      } else {
        PlainFirst(s);
        LineIsScan(s[1..]);
      }
    }
  }

  lemma {:induction false} BlockIsScan(s: string, nesting: nat)
    requires nesting > 0
    ensures Block(Tokens(s), nesting) == ScanBlock(s, nesting)
    decreases |s|
  {
    if s != "" {
      if SymbolAt(s) > 0 {
        SymbolFirst(s);
        var rest := s[SymbolAt(s)..];
        if BLOCK_OPEN <= s {
          BlockIsScan(rest, nesting + 1);
        } else if BLOCK_CLOSE <= s && nesting == 1 {
          CodeIsScan(rest);
        } else if BLOCK_CLOSE <= s {
          BlockIsScan(rest, nesting - 1);
        } else {
          BlockIsScan(rest, nesting);
        }
      } else {
        PlainFirst(s);
        BlockIsScan(s[1..], nesting);
      }
    }
  }

  // ---------------------------------------------------------------------------------------------
  // Stripping twice is stripping once

  /** Read left to right, the text has no symbol that opens a comment. */
  predicate Clean(s: string)
    decreases |s|
  {
    s == "" ||
    (if BLOCK_CLOSE <= s then Clean(s[2..])
     else !(LINE_COMMENT <= s) && !(BLOCK_OPEN <= s) && Clean(s[1..]))
  }

  lemma {:induction false} CleanIsKept(s: string)
    requires Clean(s)
    ensures Scan(s) == s
    decreases |s|
  {
    if s != "" {
      if BLOCK_CLOSE <= s {
        assert s == BLOCK_CLOSE + s[2..];
        CleanIsKept(s[2..]);
      } else {
        CleanIsKept(s[1..]);
      }
    }
  }

  lemma {:induction false} ScanShortens(s: string)
    ensures |Scan(s)| <= |s| && |ScanLine(s)| <= |s|
    ensures forall n: nat :: n > 0 ==> |ScanBlock(s, n)| <= |s|
    decreases |s|
  {
    if s != "" {
      ScanShortens(s[1..]);
      if |s| > 1 {
        ScanShortens(s[2..]);
      }
    }
  }

  /** A text that keeps its length is clean: every comment costs at least its opening symbol. */
  lemma {:induction false} KeptIsClean(s: string)
    requires Scan(s) == s
    ensures Clean(s)
    decreases |s|
  {
    if s != "" {
      if LINE_COMMENT <= s || BLOCK_OPEN <= s {
        ScanShortens(s[2..]);
      } else if BLOCK_CLOSE <= s {
        assert Scan(s)[2..] == Scan(s[2..]);
        KeptIsClean(s[2..]);
      } else {
        assert Scan(s)[1..] == Scan(s[1..]);
        KeptIsClean(s[1..]);
      }
    }
  }

  /** A slash or star that starts no symbol stands before a character that is kept. */
  lemma {:induction false} NextIsKept(s: string)
    requires |s| > 1 && SymbolAt(s) == 0 && (s[0] == '/' || s[0] == '*')
    ensures Scan(s[1..]) != "" && Scan(s[1..])[0] == s[1]
    ensures s[0] == '/' ==> s[1] != '/' && s[1] != '*'
    ensures s[0] == '*' ==> s[1] != '/'
  {
    TwoChars(s);
    assert s[1..][0] == s[1];
  }

  lemma {:induction false} OneMoreIsClean(c: char, rest: string)
    requires Clean(rest)
    requires c == '/' && rest != "" ==> rest[0] != '/' && rest[0] != '*'
    requires c == '*' && rest != "" ==> rest[0] != '/'
    ensures Clean([c] + rest)
  {
    var s := [c] + rest;
    assert s[1..] == rest;
    if rest != "" {
      assert s[1] == rest[0];
      TwoChars(s);
    }
  }

  lemma {:induction false} TwoChars(s: string)
    requires |s| > 1
    ensures LINE_COMMENT <= s <==> s[0] == '/' && s[1] == '/'
    ensures BLOCK_OPEN <= s <==> s[0] == '/' && s[1] == '*'
    ensures BLOCK_CLOSE <= s <==> s[0] == '*' && s[1] == '/'
  {
    assert s[..2] == [s[0], s[1]];
    assert LINE_COMMENT <= s <==> s[..2] == LINE_COMMENT;
    assert BLOCK_OPEN <= s <==> s[..2] == BLOCK_OPEN;
    assert BLOCK_CLOSE <= s <==> s[..2] == BLOCK_CLOSE;
  }

  /**
   * Joining kept pieces creates no new symbol: a slash or star that is kept stands before the character
   * it stood before in the text.
   */
  lemma {:induction false} ScanIsClean(s: string)
    ensures Clean(Scan(s)) && Clean(ScanLine(s))
    ensures forall n: nat :: n > 0 ==> Clean(ScanBlock(s, n))
    decreases |s|
  {
    if s != "" {
      ScanIsClean(s[1..]);
      if |s| > 1 {
        ScanIsClean(s[2..]);
      }
      if SymbolAt(s) == 0 {
        if |s| > 1 && (s[0] == '/' || s[0] == '*') {
          NextIsKept(s);
        }
        OneMoreIsClean(s[0], Scan(s[1..]));
      } else if NEWLINE <= s {
        assert s[0] == '\n';
        OneMoreIsClean(s[0], Scan(s[1..]));
      } else if BLOCK_CLOSE <= s {
        assert Scan(s)[2..] == Scan(s[2..]);
      }
    }
  }

  lemma {:induction false} StripIsIdempotent(text: string)
    ensures Scan(Scan(text)) == Scan(text)
  {
    ScanIsClean(text);
    CleanIsKept(Scan(text));
  }

  /** A text is left alone exactly when its tokens include no opening of a comment. */
  lemma {:induction false} CleanTokens(s: string)
    ensures Clean(s) <==> LINE_COMMENT !in Tokens(s) && BLOCK_OPEN !in Tokens(s)
    decreases |s|
  {
    if s != "" {
      if SymbolAt(s) > 0 {
        SymbolFirst(s);
        CleanTokens(s[SymbolAt(s)..]);
        assert Tokens(s) == [Tokens(s)[0]] + Tokens(s)[1..];
        if NEWLINE <= s {
          assert s[0] == '\n';
        }
      } else {
        PlainFirst(s);
        CleanTokens(s[1..]);
        assert Tokens(s) == [Tokens(s)[0]] + Tokens(s)[1..];
        if Glued(s) {
          var rest := Tokens(s[1..]);
          assert rest == [rest[0]] + rest[1..];
        }
      }
    }
  }

  lemma {:induction false} UnchangedIffNoComment(text: string)
    ensures Scan(text) == text <==> LINE_COMMENT !in Tokens(text) && BLOCK_OPEN !in Tokens(text)
  {
    CleanTokens(text);
    if Scan(text) == text {
      KeptIsClean(text);
    } else if Clean(text) {
      CleanIsKept(text);
    }
  }

  // ---------------------------------------------------------------------------------------------
  // How far a comment reaches

  /** How deep the comments are nested after these tokens, if they start `nesting` deep and do not get out. */
  function NestingAfter(tokens: seq<string>, nesting: nat): nat
    decreases |tokens|
  {
    if tokens == [] || nesting == 0 then nesting
    else if tokens[0] == BLOCK_OPEN then NestingAfter(tokens[1..], nesting + 1)
    else if tokens[0] == BLOCK_CLOSE then NestingAfter(tokens[1..], nesting - 1)
    else NestingAfter(tokens[1..], nesting)
  }

  /** A block comment ends at the close that brings its nesting to zero, and text goes on right after it. */
  lemma {:induction false} BlockEndsWhenBalanced(body: seq<string>, rest: seq<string>, nesting: nat)
    requires nesting > 0 && NestingAfter(body, nesting) == 1
    ensures Block(body + [BLOCK_CLOSE] + rest, nesting) == Code(rest)
    decreases |body|
  {
    var all := body + [BLOCK_CLOSE] + rest;
    if body == [] {
      assert all[1..] == rest;
    } else {
      assert all[1..] == body[1..] + [BLOCK_CLOSE] + rest;
      var deeper := if body[0] == BLOCK_OPEN then nesting + 1
                    else if body[0] == BLOCK_CLOSE then nesting - 1 else nesting;
      assert deeper > 0;
      BlockEndsWhenBalanced(body[1..], rest, deeper);
    }
  }

  /** A block comment that is never balanced swallows the rest of the text. */
  lemma {:induction false} UnbalancedBlockSwallows(tokens: seq<string>, nesting: nat)
    requires nesting > 0
    ensures NestingAfter(tokens, nesting) > 0 ==> Block(tokens, nesting) == ""
    decreases |tokens|
  {
    if tokens != [] {
      if tokens[0] == BLOCK_OPEN {
        UnbalancedBlockSwallows(tokens[1..], nesting + 1);
      } else if tokens[0] != BLOCK_CLOSE {
        UnbalancedBlockSwallows(tokens[1..], nesting);
      } else if nesting > 1 {
        UnbalancedBlockSwallows(tokens[1..], nesting - 1);
      } else {
        assert NestingAfter(tokens[1..], 0) == 0;
      }
    }
  }

  /** A line comment takes its newline with it. */
  lemma {:induction false} LineCommentTakesItsNewline(comment: string, rest: string)
    requires '\n' !in comment
    ensures ScanLine(comment + NEWLINE + rest) == Scan(rest) && ScanLine(comment) == ""
    decreases |comment|
  {
    var all := comment + NEWLINE + rest;
    if comment == "" {
      assert all[1..] == rest;
    } else {
      assert all[1..] == comment[1..] + NEWLINE + rest;
      LineCommentTakesItsNewline(comment[1..], rest);
    }
  }

  /** The last character of the text is not one that could be part of a symbol with what follows. */
  predicate EndsPlainly(s: string) {
    s != "" ==> s[|s| - 1] != '/' && s[|s| - 1] != '*'
  }

  /** What stands before a comment is kept, whatever follows. */
  lemma {:induction false} TextBeforeIsKept(text: string, rest: string)
    requires Clean(text) && EndsPlainly(text)
    ensures Scan(text + rest) == text + Scan(rest)
    decreases |text|
  {
    if text == "" {
      assert text + rest == rest;
    } else {
      var n := if BLOCK_CLOSE <= text then 2 else 1;
      FrontIsKept(text, rest, n);
      TextBeforeIsKept(text[n..], rest);
      FrontAndRest(text, n, Scan(rest));
    }
  }

  lemma {:induction false} FrontIsKept(text: string, rest: string, n: nat)
    requires text != "" && Clean(text) && EndsPlainly(text) && n == if BLOCK_CLOSE <= text then 2 else 1
    ensures Scan(text + rest) == text[..n] + Scan(text[n..] + rest)
    ensures Clean(text[n..]) && EndsPlainly(text[n..])
  {
    SymbolsAreInside(text, rest);
    assert (text + rest)[n..] == text[n..] + rest && (text + rest)[0] == text[0];
    assert BLOCK_CLOSE <= text ==> text[..2] == BLOCK_CLOSE;
    assert n == 1 ==> text[..1] == [text[0]];
  }

  lemma {:induction false} FrontAndRest(text: string, n: nat, end: string)
    requires n <= |text|
    ensures text[..n] + (text[n..] + end) == text + end
  {
  }

  lemma {:induction false} SymbolsAreInside(text: string, rest: string)
    requires text != "" && EndsPlainly(text)
    ensures LINE_COMMENT <= text + rest <==> LINE_COMMENT <= text
    ensures BLOCK_OPEN <= text + rest <==> BLOCK_OPEN <= text
    ensures BLOCK_CLOSE <= text + rest <==> BLOCK_CLOSE <= text
  {
    if |text| == 1 {
      assert (text + rest)[0] == text[0];
    } else {
      assert (text + rest)[0] == text[0] && (text + rest)[1] == text[1];
    }
  }

  /** So a line comment behind a text without comments is cut out, together with its newline. */
  lemma {:induction false} LineCommentIsCut(text: string, comment: string, rest: string)
    requires Clean(text) && EndsPlainly(text) && '\n' !in comment
    ensures Scan(text + (LINE_COMMENT + (comment + NEWLINE + rest))) == text + Scan(rest)
  {
    var tail := comment + NEWLINE + rest;
    TextBeforeIsKept(text, LINE_COMMENT + tail);
    assert (LINE_COMMENT + tail)[2..] == tail;
    LineCommentTakesItsNewline(comment, rest);
  }

  /** And so is a block comment that has no slash and no asterisk in it. */
  lemma {:induction false} BlockCommentIsCut(text: string, comment: string, rest: string)
    requires Clean(text) && EndsPlainly(text) && '/' !in comment && '*' !in comment
    ensures Scan(text + (BLOCK_OPEN + (comment + (BLOCK_CLOSE + rest)))) == text + Scan(rest)
  {
    var tail := comment + (BLOCK_CLOSE + rest);
    TextBeforeIsKept(text, BLOCK_OPEN + tail);
    assert (BLOCK_OPEN + tail)[2..] == tail && (BLOCK_OPEN + tail)[1] == '*';
    assert !(LINE_COMMENT <= BLOCK_OPEN + tail);
    BlockIsSkipped(comment, rest);
  }

  lemma {:induction false} BlockIsSkipped(comment: string, rest: string)
    requires '/' !in comment && '*' !in comment
    ensures ScanBlock(comment + (BLOCK_CLOSE + rest), 1) == Scan(rest)
    decreases |comment|
  {
    var all := comment + (BLOCK_CLOSE + rest);
    if comment == "" {
      assert all == BLOCK_CLOSE + rest && all[2..] == rest && all[0] == '*' && all[1] == '/';
      assert all[..2] == BLOCK_CLOSE;
    } else {
      assert all[0] == comment[0] && all[1..] == comment[1..] + (BLOCK_CLOSE + rest);
      BlockIsSkipped(comment[1..], rest);
    }
  }
}
