/** Character classes of the tokenizer's and the atom classifier's regular
    expressions (reader.ts:29, 57-67), written as predicates. */
module Chars {

  /** The line terminators, which the regular-expression `.` does not match. */
  predicate IsLineTerminator(c: char)
  {
    c == '\n' || c == '\r' || c == '\U{2028}' || c == '\U{2029}'
  }

  /** The regular-expression class `\s`: ECMAScript white space and line terminators. */
  predicate IsSpace(c: char)
  {
    || c == '\t' || c == '\U{000B}' || c == '\U{000C}' || c == ' '
    || c == '\U{00A0}' || c == '\U{1680}'
    || ('\U{2000}' <= c <= '\U{200A}')
    || c == '\U{202F}' || c == '\U{205F}' || c == '\U{3000}' || c == '\U{FEFF}'
    || IsLineTerminator(c)
  }

  /** `[\s,]`: what the tokenizer skips between tokens. */
  predicate IsSeparator(c: char)
  {
    IsSpace(c) || c == ','
  }

  /** `[\[\]{}()'`~^@]`: the characters that form a token on their own. */
  predicate IsSpecial(c: char)
  {
    || c == '[' || c == ']' || c == '{' || c == '}' || c == '(' || c == ')'
    || c == '\'' || c == '`' || c == '~' || c == '^' || c == '@'
  }

  /** `[^\s\[\]{}('"`,;)]`: the characters of an identifier run. */
  predicate IsIdentChar(c: char)
  {
    && !IsSpace(c)
    && c != '[' && c != ']' && c != '{' && c != '}' && c != '(' && c != ')'
    && c != '\'' && c != '"' && c != '`' && c != ',' && c != ';'
  }

  predicate IsDigit(c: char)
  {
    '0' <= c <= '9'
  }

  predicate AllDigits(s: string)
  {
    forall k :: 0 <= k < |s| ==> IsDigit(s[k])
  }

  predicate AllIdent(s: string)
  {
    forall k :: 0 <= k < |s| ==> IsIdentChar(s[k])
  }
}
