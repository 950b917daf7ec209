/** Turning a title or a recorded branch into a branch name, by two callers that must agree. */
module Branch {
  import opened Records

  const PREFIX := "agent-trail/"
  const MAX_SLUG := 100

  predicate Slug(c: char) {
    'a' <= c <= 'z' || '0' <= c <= '9'
  }

  /**
   * Lower case, as far as a slug can tell: beside the ASCII capitals only the dotted capital I and the
   * Kelvin sign turn into a slug character; whatever another character turns into is no slug character.
   */
  function LowerChar(c: char): char {
    if 'A' <= c <= 'Z' then (c as int + 32) as char
    else if c == '\U{0130}' then 'i'
    else if c == '\U{212A}' then 'k'
    else c
  }

  function Lower(s: string): (r: string)
    ensures |r| == |s| && forall i | 0 <= i < |s| :: r[i] == LowerChar(s[i])
  {
    seq(|s|, i requires 0 <= i < |s| => LowerChar(s[i]))
  }

  /** Each run of other characters becomes one dash. */
  function Squash(s: string): string {
    if s == "" then ""
    else if Slug(s[0]) then [s[0]] + Squash(s[1..])
    else if |s| > 1 && !Slug(s[1]) then Squash(s[1..])
    else "-" + Squash(s[1..])
  }

  function TrimLeft(s: string): string {
    if s != "" && s[0] == '-' then TrimLeft(s[1..]) else s
  }

  function TrimRight(s: string): string {
    if s != "" && s[|s| - 1] == '-' then TrimRight(s[..|s| - 1]) else s
  }

  function Trim(s: string): string {
    TrimRight(TrimLeft(s))
  }

  function Cut(slug: string): string {
    if |slug| > MAX_SLUG then Trim(slug[..MAX_SLUG]) else slug
  }

  function SanitizeBranch(raw: string): Option<string> {
    var slug := Cut(Trim(Squash(Lower(raw))));
    if slug == "" then None else Some(PREFIX + slug)
  }

  /** The prefix, one letter or digit, then up to 99 letters, digits or dashes. */
  predicate ValidBranch(name: string) {
    && PREFIX <= name
    && var slug := name[|PREFIX|..];
       1 <= |slug| <= MAX_SLUG && Slug(slug[0]) && forall c <- slug :: Slug(c) || c == '-'
  }

  /** Capitals become the small letters at the same place of the alphabet; small letters and digits stay. */
  lemma LowerTable(i: nat, c: char)
    requires i < 26
    ensures LowerChar("ABCDEFGHIJKLMNOPQRSTUVWXYZ"[i]) == "abcdefghijklmnopqrstuvwxyz"[i]
    ensures Slug(c) ==> LowerChar(c) == c
    ensures Slug(LowerChar(c)) <==> Slug(c) || 'A' <= c <= 'Z' || c == '\U{0130}' || c == '\U{212A}'
  {
  }

  /** The shape a branch must have to be pushed to, character by character. */
  lemma ValidBranchShape(name: string)
    ensures ValidBranch(name) <==>
            && 13 <= |name| <= 112 && name[..12] == "agent-trail/"
            && ('a' <= name[12] <= 'z' || '0' <= name[12] <= '9')
            && forall i | 12 <= i < |name| :: 'a' <= name[i] <= 'z' || '0' <= name[i] <= '9' || name[i] == '-'
  {
    assert |PREFIX| == 12;
    if |name| >= 13 && name[..12] == PREFIX {
      var slug := name[12..];
      assert forall i | 12 <= i < |name| :: name[i] == slug[i - 12] && slug[i - 12] in slug;
      assert PREFIX <= name && slug[0] == name[12];
    }
  }

  // ---- what a slug is

  /** Letters and digits with single dashes between. */
  predicate Spaced(s: string) {
    && (forall c <- s :: Slug(c) || c == '-')
    && (forall i | 0 < i < |s| :: s[i - 1] == '-' ==> s[i] != '-')
  }

  predicate Normal(s: string) {
    1 <= |s| <= MAX_SLUG && Spaced(s) && Slug(s[0]) && Slug(s[|s| - 1])
  }

  predicate Word(w: string) {
    w != "" && forall c <- w :: Slug(c)
  }

  /** The maximal runs of letters and digits. */
  function Words(s: string): seq<string> {
    if s == "" then []
    else
      var rest := Words(s[1..]);
      if !Slug(s[0]) then rest
      else if |s| > 1 && Slug(s[1]) && rest != [] then [[s[0]] + rest[0]] + rest[1..]
      else [[s[0]]] + rest
  }

  function Dashed(words: seq<string>): string {
    if words == [] then "" else if |words| == 1 then words[0] else words[0] + "-" + Dashed(words[1..])
  }

  lemma {:induction false} SquashStart(s: string)
    requires s != ""
    ensures Squash(s) != "" && Squash(s)[0] == if Slug(s[0]) then s[0] else '-'
  {
    if !Slug(s[0]) && |s| > 1 && !Slug(s[1]) {
      SquashStart(s[1..]);
    }
  }

  lemma {:induction false} SquashSpaced(s: string)
    ensures Spaced(Squash(s))
  {
    if |s| > 1 {
      SquashSpaced(s[1..]);
      SquashStart(s[1..]);
    }
  }

  lemma {:induction false} SquashKeepsSlugs(s: string)
    ensures (exists c <- Squash(s) :: Slug(c)) <==> (exists c <- s :: Slug(c))
  {
    if s != "" {
      SquashKeepsSlugs(s[1..]);
      assert s == [s[0]] + s[1..];
      if Slug(s[0]) {
        assert Squash(s)[0] in Squash(s);
      } else {
        assert forall c | Slug(c) :: c in s <==> c in s[1..];
        assert forall c | Slug(c) :: c in Squash(s) <==> c in Squash(s[1..]);
      }
    }
  }

  lemma {:induction false} TrimLeftIs(s: string)
    requires Spaced(s)
    ensures Spaced(TrimLeft(s)) && |TrimLeft(s)| <= |s|
    ensures TrimLeft(s) != "" ==> Slug(TrimLeft(s)[0])
    ensures TrimLeft(s) == "" <==> forall c <- s :: !Slug(c)
    ensures s != "" && Slug(s[0]) ==> TrimLeft(s) == s
  {
    if s != "" && s[0] == '-' {
      TrimLeftIs(s[1..]);
      assert s == [s[0]] + s[1..];
    } else if s != "" {
      assert s[0] in s;
    }
  }

  lemma {:induction false} TrimRightIs(s: string)
    requires Spaced(s) && (s != "" ==> Slug(s[0]))
    ensures Spaced(TrimRight(s)) && |TrimRight(s)| <= |s|
    ensures s == "" <==> TrimRight(s) == ""
    ensures s != "" ==> Slug(TrimRight(s)[0]) && Slug(TrimRight(s)[|TrimRight(s)| - 1])
    ensures s != "" && Slug(s[|s| - 1]) ==> TrimRight(s) == s
  {
    if s != "" {
      var n := |s| - 1;
      assert s[n] in s;
      if s[n] == '-' {
        TrimRightIs(s[..n]);
      }
    }
  }

  lemma TrimIs(s: string)
    requires Spaced(s)
    ensures var t := Trim(s);
            && Spaced(t) && |t| <= |s|
            && (t != "" ==> Slug(t[0]) && Slug(t[|t| - 1]))
            && (t == "" <==> forall c <- s :: !Slug(c))
            && (s != "" && Slug(s[0]) && Slug(s[|s| - 1]) ==> t == s)
  {
    hide Spaced, TrimLeft, TrimRight;
    TrimLeftIs(s);
    TrimRightIs(TrimLeft(s));
  }

  lemma SlugOf(raw: string)
    ensures var slug := Cut(Trim(Squash(Lower(raw))));
            if exists c <- Lower(raw) :: Slug(c) then Normal(slug) else slug == ""
  {
    hide Squash, Trim, Lower;
    SquashSpaced(Lower(raw));
    SquashKeepsSlugs(Lower(raw));
    var slug := Trim(Squash(Lower(raw)));
    TrimIs(Squash(Lower(raw)));
    if |slug| > MAX_SLUG {
      var short := slug[..MAX_SLUG];
      TrimIs(short);
      assert short[0] in short;
    }
  }

  /** Every answer is a valid branch; there is none exactly when the text has no letter or digit. */
  lemma SanitizedIsValid(raw: string)
    ensures match SanitizeBranch(raw)
            case None => forall c <- raw :: !Slug(LowerChar(c))
            case Some(name) => ValidBranch(name) && Normal(name[|PREFIX|..]) && exists c <- raw :: Slug(LowerChar(c))
  {
    hide Squash, Trim, Cut;
    SlugOf(raw);
    var low := Lower(raw);
    forall c | c in raw
      ensures LowerChar(c) in low
    {
      var i :| 0 <= i < |raw| && raw[i] == c;
      assert low[i] in low;
    }
    if exists c <- low :: Slug(c) {
      var c :| c in low && Slug(c);
      var i :| 0 <= i < |low| && low[i] == c;
      assert raw[i] in raw;
      var slug := Cut(Trim(Squash(low)));
      assert (PREFIX + slug)[|PREFIX|..] == slug;
    }
  }

  lemma {:induction false} SquashNormal(s: string)
    requires Spaced(s)
    ensures Squash(s) == s
  {
    if s != "" {
      assert s[0] in s && (|s| > 1 ==> s[1] in s);
      SquashNormal(s[1..]);
      assert s == [s[0]] + s[1..];
    }
  }

  lemma LowerSlug(s: string)
    requires Spaced(s)
    ensures Lower(s) == s
  {
    forall i | 0 <= i < |s|
      ensures LowerChar(s[i]) == s[i]
    {
      assert s[i] in s;
    }
  }

  /**
   * A text is its own slug exactly when it is normal. So the branch recorded for a task, without its
   * prefix, gives the same branch again.
   */
  lemma FixedPoints(s: string)
    ensures SanitizeBranch(s) == Some(PREFIX + s) <==> Normal(s)
  {
    assert (PREFIX + s)[|PREFIX|..] == s;
    if Normal(s) {
      LowerSlug(s);
      SquashNormal(s);
      TrimIs(s);
    } else if SanitizeBranch(s) == Some(PREFIX + s) {
      SanitizedIsValid(s);
    }
  }

  /** Both callers end on the same branch. */
  lemma SanitizeTwice(raw: string)
    ensures match SanitizeBranch(raw)
            case None => true
            case Some(name) => SanitizeBranch(name[|PREFIX|..]) == Some(name)
  {
    hide Squash, Trim, Cut, Lower, Normal;
    SanitizedIsValid(raw);
    match SanitizeBranch(raw)
    case None =>
    case Some(name) =>
      FixedPoints(name[|PREFIX|..]);
      assert name == PREFIX + name[|PREFIX|..];
  }

  // ---- the words of the text, in order

  predicate StartsWithOther(s: string) {
    s != "" && !Slug(s[0])
  }

  predicate EndsWithOther(s: string) {
    s != "" && !Slug(s[|s| - 1])
  }

  lemma {:induction false} WordsAreWords(s: string)
    ensures forall w <- Words(s) :: Word(w)
    ensures Words(s) == [] <==> forall c <- s :: !Slug(c)
  {
    if s != "" {
      WordsAreWords(s[1..]);
      assert s == [s[0]] + s[1..];
      if |s| > 1 && Slug(s[0]) && Slug(s[1]) {
        assert s[1..][0] in s[1..];
        assert Words(s[1..])[0] in Words(s[1..]);
      }
    }
  }

  /** The words joined by dashes, with one dash for a run of other characters at either end. */
  function Framed(s: string): string {
    (if StartsWithOther(s) then "-" else "")
    + Dashed(Words(s))
    + (if EndsWithOther(s) && Words(s) != [] then "-" else "")
  }

  lemma FrameAfterOther(s: string)
    requires |s| > 1 && !Slug(s[0])
    ensures Framed(s) == if Slug(s[1]) then "-" + Framed(s[1..]) else Framed(s[1..])
  {
    hide Dashed;
  }

  lemma FrameInsideWord(s: string)
    requires |s| > 1 && Slug(s[0]) && Slug(s[1])
    ensures Framed(s) == [s[0]] + Framed(s[1..])
  {
    hide Dashed;
    WordsAreWords(s[1..]);
    assert s[1..][0] in s[1..];
    PrependChar(s[0], Words(s[1..]));
  }

  lemma DashedAfterWord(s: string)
    requires |s| > 1 && Slug(s[0]) && !Slug(s[1])
    ensures Words(s) != []
    ensures Dashed(Words(s)) == if Words(s[1..]) == [] then [s[0]] else [s[0]] + "-" + Dashed(Words(s[1..]))
  {
    hide Dashed;
    assert Words(s) == [[s[0]]] + Words(s[1..]) && Words(s)[1..] == Words(s[1..]);
    hide Words;
    DashedFirst([s[0]], Words(s[1..]));
  }

  lemma DashedFirst(word: string, words: seq<string>)
    ensures Dashed([word] + words) == if words == [] then word else word + "-" + Dashed(words)
  {
    assert ([word] + words)[1..] == words;
  }

  lemma FrameAfterWord(s: string)
    requires |s| > 1 && Slug(s[0]) && !Slug(s[1])
    ensures Framed(s) == [s[0]] + Framed(s[1..])
  {
    hide Words, Dashed;
    var t := s[1..];
    WordsAreWords(t);
    DashedAfterWord(s);
    NoWords();
    if Words(t) == [] {
      assert t[|t| - 1] in t;
      assert Framed(t) == "-";
    } else {
      assert Framed(s) == [s[0]] + "-" + Dashed(Words(t)) + if EndsWithOther(t) then "-" else "";
    }
  }

  lemma {:induction false} SquashIsWords(s: string)
    ensures Squash(s) == Framed(s)
  {
    if |s| > 1 {
      hide Framed;
      SquashIsWords(s[1..]);
      if !Slug(s[0]) {
        FrameAfterOther(s);
      } else if Slug(s[1]) {
        FrameInsideWord(s);
      } else {
        FrameAfterWord(s);
      }
    } else if |s| == 1 {
      assert s[1..] == "" && Words(s) == if Slug(s[0]) then [[s[0]]] else [];
    }
  }

  lemma PrependChar(c: char, words: seq<string>)
    requires words != []
    ensures Dashed([[c] + words[0]] + words[1..]) == [c] + Dashed(words)
  {
    var longer := [[c] + words[0]] + words[1..];
    assert longer[1..] == words[1..];
  }

  lemma {:induction false} DashedEnds(words: seq<string>)
    requires words != [] && forall w <- words :: Word(w)
    ensures Dashed(words) != "" && Slug(Dashed(words)[0]) && Slug(Dashed(words)[|Dashed(words)| - 1])
  {
    assert Word(words[0]) && words[0][0] in words[0] && words[0][|words[0]| - 1] in words[0];
    if |words| > 1 {
      DashedEnds(words[1..]);
    }
  }

  lemma TrimDashed(body: string, before: string, behind: string)
    requires body != "" && Slug(body[0]) && Slug(body[|body| - 1])
    requires (before == "" || before == "-") && (behind == "" || behind == "-")
    ensures Trim(before + body + behind) == body
  {
    var s := before + body + behind;
    var t := body + behind;
    if before == "-" {
      assert s[0] == '-' && s[1..] == t;
      assert TrimLeft(s) == TrimLeft(t);
    } else {
      assert s == t;
    }
    assert t[0] == body[0] && TrimLeft(t) == t;
    if behind == "-" {
      assert t[|t| - 1] == '-' && t[..|t| - 1] == body;
      assert TrimRight(t) == TrimRight(body);
    } else {
      assert t == body;
    }
    assert TrimRight(body) == body;
  }

  lemma TrimIsDashed(s: string)
    ensures Trim(Squash(s)) == Dashed(Words(s))
  {
    hide Squash, Trim, TrimLeft, TrimRight, Words, Dashed;
    SquashIsWords(s);
    NoWords();
    WordsAreWords(s);
    if Words(s) == [] {
      assert Squash(s) == if StartsWithOther(s) then "-" else "";
    } else {
      DashedEnds(Words(s));
      TrimDashed(Dashed(Words(s)), if StartsWithOther(s) then "-" else "", if EndsWithOther(s) then "-" else "");
    }
  }

  /** A long slug keeps its first hundred characters, without a dash that the cut leaves at their end. */
  function Shortened(slug: string): string {
    if |slug| <= MAX_SLUG then slug
    else if slug[MAX_SLUG - 1] == '-' then slug[..MAX_SLUG - 1]
    else slug[..MAX_SLUG]
  }

  lemma CutShortens(slug: string)
    requires Spaced(slug) && (slug != "" ==> Slug(slug[0]))
    ensures Cut(slug) == Shortened(slug)
  {
    if |slug| > MAX_SLUG {
      var short := slug[..MAX_SLUG];
      TrimLeftIs(short);
      if short[MAX_SLUG - 1] == '-' {
        var shorter := short[..MAX_SLUG - 1];
        assert slug[MAX_SLUG - 2] in slug && slug[MAX_SLUG - 2] != '-';
        assert shorter == slug[..MAX_SLUG - 1];
        assert TrimRight(shorter) == shorter;
      }
    }
  }

  /** The branch is the words of the lower-cased text joined by dashes, cut to a hundred characters. */
  lemma SanitizedIsWords(raw: string)
    ensures var words := Words(Lower(raw));
            SanitizeBranch(raw) == if words == [] then None else Some(PREFIX + Shortened(Dashed(words)))
  {
    hide Squash, Trim, Cut, Lower, Words, Dashed, Shortened, Spaced;
    var s := Lower(raw);
    TrimIsDashed(s);
    SquashSpaced(s);
    TrimIs(Squash(s));
    CutShortens(Trim(Squash(s)));
    ShortenedEmpty(Dashed(Words(s)));
    NoWords();
    if Words(s) != [] {
      WordsAreWords(s);
      DashedEnds(Words(s));
    }
  }

  lemma ShortenedEmpty(slug: string)
    ensures Shortened(slug) == "" <==> slug == ""
  {
  }

  lemma NoWords()
    ensures Dashed([]) == "" && Trim("") == "" && Trim("-") == ""
  {
    assert "-"[1..] == "";
  }
}
