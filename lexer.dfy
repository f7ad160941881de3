/**
 * The `Lexer` class of lang.py: the text, the cursor `pos` and the cached
 * `current_char`, advanced step by step inside the loops of the source. Each
 * method is proved to leave the cursor where LexerSpec says.
 */
module LexerEngine {
  import opened Builtins
  import Spec = LexerSpec

  class Lexer {
    const text: string
    var pos: nat
    var currentChar: Option<char>
    const keywords: set<string>

    /** `current_char` is the character under the cursor, `None` past the end. */
    predicate Valid()
      reads this
    {
      currentChar == Spec.CharAt(text, pos) && keywords == Spec.Keywords
    }

    /** `Lexer(text)`: the cursor on the first character. */
    constructor (text: string)
      ensures Valid() && this.text == text && pos == 0
    {
      this.text := text;
      pos := 0;
      currentChar := if |text| > 0 then Some(text[0]) else None;
      keywords := Spec.Keywords;
    }

    /** `advance`: one character on. */
    method Advance()
      requires Valid()
      modifies this
      ensures Valid() && pos == old(pos) + 1
    {
      pos := pos + 1;
      currentChar := if pos < |text| then Some(text[pos]) else None;
    }

    /** `skip_whitespace`: past the white space other than newlines. */
    method SkipWhitespace()
      requires Valid()
      modifies this
      ensures Valid() && pos == Spec.RunEnd(text, old(pos), Spec.Blank)
    {
      while currentChar.Some? && Spec.Blank(currentChar.value)
        invariant Valid() && old(pos) <= pos
        invariant Spec.RunEnd(text, pos, Spec.Blank) == Spec.RunEnd(text, old(pos), Spec.Blank)
        decreases |text| - pos
      {
        Advance();
      }
    }

    /** `get_number`: the run of number characters under the cursor. */
    method GetNumber() returns (result: string)
      requires Valid()
      modifies this
      ensures Valid() && pos == Spec.RunEnd(text, old(pos), Spec.NumberChar)
      ensures old(pos) <= |text| ==> result == text[old(pos)..pos]
      ensures |text| < old(pos) ==> result == ""
    {
      result := "";
      while currentChar.Some? && Spec.NumberChar(currentChar.value)
        invariant Valid() && old(pos) <= pos
        invariant Spec.RunEnd(text, pos, Spec.NumberChar) == Spec.RunEnd(text, old(pos), Spec.NumberChar)
        invariant old(pos) <= |text| ==> pos <= |text| && result == text[old(pos)..pos]
        invariant |text| < old(pos) ==> pos == old(pos) && result == ""
        decreases |text| - pos
      {
        result := result + [currentChar.value];
        Advance();
      }
    }

    /** `get_identifier`: the run of letters, digits and `_` under the cursor. */
    method GetIdentifier() returns (result: string)
      requires Valid()
      modifies this
      ensures Valid() && pos == Spec.RunEnd(text, old(pos), Spec.IdentChar)
      ensures old(pos) <= |text| ==> result == text[old(pos)..pos]
      ensures |text| < old(pos) ==> result == ""
    {
      result := "";
      while currentChar.Some? && Spec.IdentChar(currentChar.value)
        invariant Valid() && old(pos) <= pos
        invariant Spec.RunEnd(text, pos, Spec.IdentChar) == Spec.RunEnd(text, old(pos), Spec.IdentChar)
        invariant old(pos) <= |text| ==> pos <= |text| && result == text[old(pos)..pos]
        invariant |text| < old(pos) ==> pos == old(pos) && result == ""
        decreases |text| - pos
      {
        result := result + [currentChar.value];
        Advance();
      }
    }

    /** `get_next_token`; the raised `SyntaxError` is the `Err` result. */
    method GetNextToken() returns (token: Result<Spec.Token, Spec.LexError>)
      requires Valid()
      modifies this
      ensures Valid() && Spec.Lexed(token, pos) == Spec.NextToken(text, old(pos))
    {
      while currentChar.Some?
        invariant Valid()
        invariant Spec.NextToken(text, pos) == Spec.NextToken(text, old(pos))
        decreases |text| - pos
      {
        var c := currentChar.value;
        if Spec.Blank(c) {
          SkipWhitespace();
          continue;
        }
        if c == '\n' {
          Advance();
          return Ok(Spec.Token(Spec.Newline, Some("\n")));
        }
        if c == '#' {
          ghost var start := pos;
          while currentChar.Some? && currentChar.value != '\n'
            invariant Valid() && start <= pos
            invariant Spec.RunEnd(text, pos, Spec.NotNewline) == Spec.RunEnd(text, start, Spec.NotNewline)
            decreases |text| - pos
          {
            Advance();
          }
          continue;
        }
        if IsDigit(c) {
          var number := GetNumber();
          return Ok(Spec.Token(Spec.Number, Some(number)));
        }
        if IsAlpha(c) || c == '_' {
          var identifier := GetIdentifier();
          if identifier in keywords {
            return Ok(Spec.Token(Spec.Keyword, Some(identifier)));
          }
          return Ok(Spec.Token(Spec.Identifier, Some(identifier)));
        }
        if c in Spec.Operators {
          Advance();
          return Ok(Spec.Token(Spec.Operator, Some([c])));
        }
        return Err(Spec.InvalidCharacter(c));
      }
      return Ok(Spec.Token(Spec.Eof, None));
    }
  }
}
