/**
 * The regular expressions the schemas match cell text against, each written out as the
 * set of strings it accepts under Python's re.match. A pattern that ends in `$` also
 * accepts the same text followed by one final newline, as Python's `$` does.
 * `\w` is taken as the ASCII word characters; `\s` as Python's whitespace.
 */
module Patterns {
  import opened Text

  datatype Pattern =
    | EmailStrictTld   // ^[A-Za-z0-9._%+-]+@[A-Za-z0-9.-]+\.[A-Za-z]{2,}$
    | PersonName       // ^[A-Za-z\s'-]+$
    | EmailWordTld     // ^[\w\.-]+@[\w\.-]+\.\w{2,4}$
    | BrandLetter      // ^Brand[A-Z]$

  predicate AllOf(s: string, p: char -> bool) {
    forall i :: 0 <= i < |s| ==> p(s[i])
  }

  predicate IsWordChar(c: char) { IsLetter(c) || IsDigit(c) || c == '_' }

  predicate LocalChar(c: char) { IsLetter(c) || IsDigit(c) || c == '.' || c == '_' || c == '%' || c == '+' || c == '-' }

  predicate DomainChar(c: char) { IsLetter(c) || IsDigit(c) || c == '.' || c == '-' }

  predicate WordDotDash(c: char) { IsWordChar(c) || c == '.' || c == '-' }

  predicate NameChar(c: char) { IsLetter(c) || IsSpace(c) || c == '\'' || c == '-' }

  /** The text splits as local '@' domain '.' tld at positions a ('@') and d (the last dot). */
  predicate StrictTldSplit(b: string, a: int, d: int) {
    0 < a && a + 1 < d && d + 3 <= |b|
    && AllOf(b[..a], LocalChar) && b[a] == '@' && AllOf(b[a + 1..d], DomainChar)
    && b[d] == '.' && AllOf(b[d + 1..], IsLetter)
  }

  predicate WordTldSplit(b: string, a: int, d: int) {
    0 < a && a + 1 < d && d + 3 <= |b| <= d + 5
    && AllOf(b[..a], WordDotDash) && b[a] == '@' && AllOf(b[a + 1..d], WordDotDash)
    && b[d] == '.' && AllOf(b[d + 1..], IsWordChar)
  }

  /** What the pattern accepts between ^ and $. */
  predicate Body(p: Pattern, b: string) {
    match p
    case EmailStrictTld => exists a, d | 0 < a < d < |b| :: StrictTldSplit(b, a, d)
    case PersonName => |b| > 0 && AllOf(b, NameChar)
    case EmailWordTld => exists a, d | 0 < a < d < |b| :: WordTldSplit(b, a, d)
    case BrandLetter => |b| == 6 && b[..5] == "Brand" && IsUpperLetter(b[5])
  }

  /** re.match(pattern, s) succeeds. */
  predicate Matches(p: Pattern, s: string) {
    Body(p, s) || (|s| > 0 && s[|s| - 1] == '\n' && Body(p, s[..|s| - 1]))
  }

  /** A brand passes exactly when it is "Brand" and one capital letter, optionally followed by a newline. */
  lemma BrandLetterSpec(s: string)
    ensures Matches(BrandLetter, s) <==>
      exists c :: IsUpperLetter(c) && (s == "Brand" + [c] || s == "Brand" + [c] + "\n")
  {
    if Matches(BrandLetter, s) {
      if Body(BrandLetter, s) {
        assert s == "Brand" + [s[5]];
      } else {
        var b := s[..|s| - 1];
        assert b == "Brand" + [b[5]];
        assert s == b + "\n";
      }
    }
  }

  /** Examples of the email pattern with a letters-only top-level domain of two or more letters. */
  lemma StrictTldExamples()
    ensures Matches(EmailStrictTld, "ann.lee@mail.example.com")
    ensures !Matches(EmailStrictTld, "ann@mail.c")
    ensures !Matches(EmailStrictTld, "ann@mail.c0m")
  {
    var s := "ann.lee@mail.example.com";
    assert StrictTldSplit(s, 7, 20);
    var u := "ann@mail.c";
    forall a, d ensures !StrictTldSplit(u, a, d) {
    }
    var v := "ann@mail.c0m";
    forall a, d | 0 < a < d < |v| ensures !StrictTldSplit(v, a, d) {
      if d == 8 {
        assert v[d + 1..][1] == '0';
      }
    }
  }

  /** The word-character email pattern caps the top-level domain at four characters. */
  lemma WordTldExamples()
    ensures Matches(EmailWordTld, "a_b@x-y.org")
    ensures !Matches(EmailWordTld, "a@x.museum")
  {
    assert WordTldSplit("a_b@x-y.org", 3, 7);
    var u := "a@x.museum";
    forall a, d | 0 < a < d < |u| ensures !WordTldSplit(u, a, d) {
    }
  }
}
