/**
 Skill IDs and the paths made from them (internal/agent/skill_catalog.go, normalizeSkillID and the path helpers),
 on ASCII text.
 */
module SkillIds {
  import Text

  predicate IsAlnum(c: char) {
    'a' <= c <= 'z' || '0' <= c <= '9'
  }

  predicate EndsInDash(s: string) {
    s != "" && s[|s| - 1] == '-'
  }

  /** What the builder holds: letters and digits are kept, every run of other characters becomes one dash. */
  function Slug(v: string): string {
    if v == "" then ""
    else
      var n := |v| - 1;
      var s := Slug(v[..n]);
      if IsAlnum(v[n]) then s + [v[n]] else if EndsInDash(s) then s else s + "-"
  }

  function TrimLeftDashes(s: string): (r: string)
    ensures r == "" || r[0] != '-'
    ensures |r| <= |s| && r == s[|s| - |r|..]
  {
    if s != "" && s[0] == '-' then TrimLeftDashes(s[1..]) else s
  }

  function TrimRightDashes(s: string): (r: string)
    ensures r == "" || r[|r| - 1] != '-'
    ensures |r| <= |s| && r == s[..|r|]
  {
    if s != "" && s[|s| - 1] == '-' then TrimRightDashes(s[..|s| - 1]) else s
  }

  function TrimDashes(s: string): string {
    TrimRightDashes(TrimLeftDashes(s))
  }

  const DEFAULT_ID := "skill"

  function SkillId(value: string): string {
    var id := TrimDashes(Slug(Text.Normalize(value)));
    if id == "" then DEFAULT_ID else id
  }

  lemma NothingIsDefault()
    ensures TrimDashes(Slug("")) == ""
  {}

  method NormalizeSkillId(value: string) returns (id: string)
    ensures id == SkillId(value)
  {
    hide TrimDashes, Text.TrimSpace, Text.ToLower;
    var v := Text.ToLower(Text.TrimSpace(value));
    NothingIsDefault();
    if v == "" { return DEFAULT_ID; }
    var b := "";
    var lastDash := false;
    for i := 0 to |v|
      invariant b == Slug(v[..i])
      invariant lastDash <==> EndsInDash(b)
    {
      assert v[..i + 1][..i] == v[..i];
      if IsAlnum(v[i]) {
        b := b + [v[i]];
        lastDash := false;
      } else if !lastDash {
        b := b + "-";
        lastDash := true;
      }
    }
    assert v[..|v|] == v;
    var result := TrimDashes(b);
    return if result == "" then DEFAULT_ID else result;
  }

  // ----- shape

  /** Only letters, digits and single dashes. */
  predicate Dashed(s: string) {
    && (forall i :: 0 <= i < |s| ==> IsAlnum(s[i]) || s[i] == '-')
    && (forall i :: 0 < i < |s| ==> s[i] != '-' || s[i - 1] != '-')
  }

  /** `[a-z0-9]+(-[a-z0-9]+)*` */
  predicate IsSlug(s: string) {
    Dashed(s) && s != "" && s[0] != '-' && s[|s| - 1] != '-'
  }

  lemma {:induction false} SlugIsDashed(v: string)
    ensures Dashed(Slug(v))
  {
    if v != "" { SlugIsDashed(v[..|v| - 1]); }
  }

  lemma DefaultIsSlug()
    ensures IsSlug(DEFAULT_ID)
  {}

  lemma DashedInside(s: string, i: nat, j: nat)
    requires Dashed(s) && i <= j <= |s|
    ensures Dashed(s[i..j])
  {
    hide IsAlnum;
  }

  lemma TrimmedIsSlug(s: string)
    requires Dashed(s)
    ensures TrimDashes(s) == "" || IsSlug(TrimDashes(s))
  {
    hide Dashed, TrimLeftDashes, TrimRightDashes;
    var t := TrimLeftDashes(s);
    var r := TrimRightDashes(t);
    DashedInside(s, |s| - |t|, |s|);
    assert s[|s| - |t|..|s|] == t;
    DashedInside(t, 0, |r|);
    assert t[0..|r|] == r;
    assert r != "" ==> r[0] == t[0];
  }

  /** Whatever the name, the ID has the shape of a slug. */
  lemma SkillIdIsSlug(value: string)
    ensures IsSlug(SkillId(value))
  {
    hide Slug, TrimDashes, Text.Normalize, IsSlug, Dashed;
    SlugIsDashed(Text.Normalize(value));
    TrimmedIsSlug(Slug(Text.Normalize(value)));
    DefaultIsSlug();
  }

  lemma DashedLast(s: string)
    requires Dashed(s) && s != ""
    ensures Dashed(s[..|s| - 1])
    ensures !IsAlnum(s[|s| - 1]) ==> s[|s| - 1] == '-' && !EndsInDash(s[..|s| - 1])
  {
    hide IsAlnum;
  }

  lemma {:induction false} SlugKeepsSlugs(s: string)
    requires Dashed(s)
    ensures Slug(s) == s
  {
    hide Dashed, IsAlnum, EndsInDash;
    if s != "" {
      var n := |s| - 1;
      DashedLast(s);
      SlugKeepsSlugs(s[..n]);
      assert s == s[..n] + [s[n]];
    }
  }

  lemma NormalizeKeepsSlugs(s: string)
    requires IsSlug(s)
    ensures Text.Normalize(s) == s
  {
    hide Text.Normalize;
    assert IsAlnum(s[0]) && IsAlnum(s[|s| - 1]);
    forall i | 0 <= i < |s| ensures !('A' <= s[i] <= 'Z') {
      assert IsAlnum(s[i]) || s[i] == '-';
    }
    Text.NormalizeKeeps(s);
  }

  /** Normalizing twice is normalizing once. */
  lemma SkillIdIsIdempotent(value: string)
    ensures SkillId(SkillId(value)) == SkillId(value)
  {
    var id := SkillId(value);
    SkillIdIsSlug(value);
    NormalizeKeepsSlugs(id);
    SlugKeepsSlugs(id);
    assert TrimLeftDashes(id) == id && TrimRightDashes(id) == id;
  }

  function Letters(s: string): string {
    if s == "" then ""
    else
      var n := |s| - 1;
      Letters(s[..n]) + (if IsAlnum(s[n]) then [s[n]] else "")
  }

  lemma {:induction false} SlugKeepsLetters(v: string)
    ensures Letters(Slug(v)) == Letters(v)
  {
    if v != "" {
      var n := |v| - 1;
      SlugKeepsLetters(v[..n]);
      var s := Slug(v[..n]);
      assert (s + [v[n]])[..|s|] == s && (s + "-")[..|s|] == s;
    }
  }

  lemma {:induction false} LettersConcat(a: string, b: string)
    ensures Letters(a + b) == Letters(a) + Letters(b)
  {
    if b == "" {
      assert a + b == a;
    } else {
      var n := |b| - 1;
      LettersConcat(a, b[..n]);
      assert (a + b)[..|a| + n] == a + b[..n];
    }
  }

  lemma {:induction false} LeftTrimKeepsLetters(s: string)
    ensures Letters(TrimLeftDashes(s)) == Letters(s)
  {
    if s != "" && s[0] == '-' {
      LeftTrimKeepsLetters(s[1..]);
      LettersConcat([s[0]], s[1..]);
      assert [s[0]] + s[1..] == s;
      assert Letters([s[0]]) == "";
    }
  }

  lemma {:induction false} RightTrimKeepsLetters(s: string)
    ensures Letters(TrimRightDashes(s)) == Letters(s)
  {
    if s != "" && s[|s| - 1] == '-' { RightTrimKeepsLetters(s[..|s| - 1]); }
  }

  /** The ID has the letters and digits of the name, in order; a name without any has the default ID. */
  lemma SkillIdKeepsLetters(value: string)
    ensures Letters(Text.Normalize(value)) != "" ==> Letters(SkillId(value)) == Letters(Text.Normalize(value))
    ensures Letters(Text.Normalize(value)) == "" ==> SkillId(value) == DEFAULT_ID
  {
    var v := Text.Normalize(value);
    SlugKeepsLetters(v);
    LeftTrimKeepsLetters(Slug(v));
    RightTrimKeepsLetters(TrimLeftDashes(Slug(v)));
    var id := TrimDashes(Slug(v));
    if id != "" {
      SkillIdIsSlug(value);
      assert IsAlnum(id[|id| - 1]);
    }
  }

  // ----- the ID in words of the name

  const LETTERS := "abcdefghijklmnopqrstuvwxyz"
  const DIGITS := "0123456789"

  predicate IsLetterOrDigit(c: char) {
    c in LETTERS || c in DIGITS
  }

  lemma LettersInWords(c: char)
    ensures 'a' <= c <= 'z' <==> c in LETTERS
  {
    if 'a' <= c <= 'z' {
      var k := c as int - 'a' as int;
      assert LETTERS[k] == c;
    } else {
      assert forall k :: 0 <= k < |LETTERS| ==> 'a' <= LETTERS[k] <= 'z';
    }
  }

  lemma DigitsInWords(c: char)
    ensures '0' <= c <= '9' <==> c in DIGITS
  {
    if '0' <= c <= '9' { assert DIGITS[c as int - '0' as int] == c; }
  }

  lemma AlnumInWords(c: char)
    ensures IsAlnum(c) <==> IsLetterOrDigit(c)
  {
    LettersInWords(c);
    DigitsInWords(c);
    hide LETTERS, DIGITS;
  }

  /** The runs of letters and digits, from left to right. */
  function Words(v: string): (ws: seq<string>)
    ensures forall k :: 0 <= k < |ws| ==> ws[k] != ""
  {
    if v == "" then []
    else
      var n := |v| - 1;
      var ws := Words(v[..n]);
      if !IsLetterOrDigit(v[n]) then ws
      else if n > 0 && IsLetterOrDigit(v[n - 1]) && ws != [] then ws[..|ws| - 1] + [ws[|ws| - 1] + [v[n]]]
      else ws + [[v[n]]]
  }

  function Dashes(ws: seq<string>): string {
    if ws == [] then ""
    else if |ws| == 1 then ws[0]
    else Dashes(ws[..|ws| - 1]) + "-" + ws[|ws| - 1]
  }

  function Front(v: string): string
    requires v != ""
  {
    if IsLetterOrDigit(v[0]) then "" else "-"
  }

  function Back(v: string): string
    requires v != ""
  {
    if IsLetterOrDigit(v[|v| - 1]) then "" else "-"
  }

  /** What the builder holds, by words: a dash for what is in front of them, between them and behind them. */
  function Built(v: string): string {
    if v == "" then "" else if Words(v) == [] then "-" else Front(v) + Dashes(Words(v)) + Back(v)
  }

  lemma DashesSnoc(ws: seq<string>, w: string)
    ensures Dashes(ws + [w]) == if ws == [] then w else Dashes(ws) + "-" + w
  {
    assert (ws + [w])[..|ws|] == ws;
  }

  lemma AppendLast(front: string, w: string, c: char)
    ensures front + "-" + (w + [c]) == front + "-" + w + [c]
  {}

  lemma DashesExtend(ws: seq<string>, c: char)
    requires ws != []
    ensures Dashes(ws[..|ws| - 1] + [ws[|ws| - 1] + [c]]) == Dashes(ws) + [c]
  {
    hide Dashes;
    var n := |ws| - 1;
    var front, w := ws[..n], ws[n];
    assert ws == front + [w];
    DashesSnoc(front, w + [c]);
    DashesSnoc(front, w);
    AppendLast(Dashes(front), w, c);
  }

  lemma {:induction false} WordsWhere(v: string)
    ensures Words(v) == [] <==> forall k :: 0 <= k < |v| ==> !IsLetterOrDigit(v[k])
  {
    hide IsLetterOrDigit, Words;
    if v != "" {
      var n := |v| - 1;
      WordsUnfold(v);
      WordsWhere(v[..n]);
      assert forall k :: 0 <= k < n ==> v[..n][k] == v[k];
    } else {
      NoWords();
    }
  }

  lemma NoWords()
    ensures Words("") == []
  {}

  lemma {:induction false} EndsWell(ws: seq<string>)
    requires ws != [] && forall k :: 0 <= k < |ws| ==> ws[k] != "" && forall c :: c in ws[k] ==> IsAlnum(c)
    ensures Dashes(ws) != "" && IsAlnum(Dashes(ws)[0]) && IsAlnum(Dashes(ws)[|Dashes(ws)| - 1])
  {
    var n := |ws| - 1;
    assert ws[n][|ws[n]| - 1] in ws[n] && ws[0][0] in ws[0];
    if n > 0 { EndsWell(ws[..n]); }
  }

  lemma {:induction false} WordsAreAlnum(v: string)
    ensures forall k :: 0 <= k < |Words(v)| ==> forall c :: c in Words(v)[k] ==> IsAlnum(c)
  {
    hide IsAlnum, IsLetterOrDigit;
    if v != "" {
      WordsAreAlnum(v[..|v| - 1]);
      AlnumInWords(v[|v| - 1]);
    }
  }

  lemma {:induction false} SlugIsBuilt(v: string)
    ensures Slug(v) == Built(v)
  {
    if v != "" {
      hide Built, Slug, Words;
      SlugIsBuilt(v[..|v| - 1]);
      if Words(v[..|v| - 1]) == [] { FirstWordStep(v); } else { NextWordStep(v); }
    }
  }

  lemma WordsUnfold(v: string)
    requires v != ""
    ensures var n := |v| - 1;
            var ws := Words(v[..n]);
            Words(v)
            == if !IsLetterOrDigit(v[n]) then ws
               else if n > 0 && IsLetterOrDigit(v[n - 1]) && ws != [] then ws[..|ws| - 1] + [ws[|ws| - 1] + [v[n]]]
               else ws + [[v[n]]]
  {
    hide IsLetterOrDigit;
  }

  lemma SlugUnfold(v: string)
    requires v != ""
    ensures var s := Slug(v[..|v| - 1]);
            Slug(v) == if IsLetterOrDigit(v[|v| - 1]) then s + [v[|v| - 1]] else if EndsInDash(s) then s else s + "-"
  {
    AlnumInWords(v[|v| - 1]);
    hide IsLetterOrDigit, IsAlnum, EndsInDash;
  }

  lemma FirstWordStep(v: string)
    requires v != "" && Slug(v[..|v| - 1]) == Built(v[..|v| - 1]) && Words(v[..|v| - 1]) == []
    ensures Slug(v) == Built(v)
  {
    hide IsLetterOrDigit, Words, Slug;
    var n := |v| - 1;
    WordsUnfold(v);
    SlugUnfold(v);
    WordsWhere(v[..n]);
    if n > 0 { assert v[..n][n - 1] == v[n - 1] && v[..n][0] == v[0]; }
  }

  /** Whether the slug so far ends in a dash is whether the last character was none to keep. */
  lemma EndOfSlug(front: string, d: string, back: string)
    requires d != "" && d[|d| - 1] != '-' && back in {"", "-"}
    ensures EndsInDash(front + d + back) <==> back == "-"
  {
    if back == "" { assert front + d + back == front + d; }
  }

  lemma KeepsOn(front: string, d: string, c: char)
    ensures front + d + "" + [c] == front + (d + [c]) + ""
  {}

  lemma BeginsAnew(front: string, d: string, c: char)
    ensures front + d + "-" + [c] == front + (d + "-" + [c]) + ""
  {}

  lemma Leaves(front: string, d: string)
    ensures front + d + "" + "-" == front + d + "-"
  {}

  lemma NextWordStep(v: string)
    requires v != "" && Slug(v[..|v| - 1]) == Built(v[..|v| - 1]) && Words(v[..|v| - 1]) != []
    ensures Slug(v) == Built(v)
  {
    hide IsAlnum, IsLetterOrDigit, Words, Slug, Dashes, EndsInDash;
    var n := |v| - 1;
    var u := v[..n];
    var ws := Words(u);
    assert n > 0 by { NoWords(); }
    WordsUnfold(v);
    SlugUnfold(v);
    SlugIsBuiltFrom(u);
    assert Front(v) == Front(u);
    assert Back(u) == if IsLetterOrDigit(v[n - 1]) then "" else "-" by { assert u[n - 1] == v[n - 1]; }
    var d := Dashes(ws);
    EndOfSlug(Front(u), d, Back(u));
    hide Front;
    if IsLetterOrDigit(v[n]) {
      if Back(u) == "" {
        DashesExtend(ws, v[n]);
        KeepsOn(Front(u), d, v[n]);
      } else {
        DashesSnoc(ws, [v[n]]);
        BeginsAnew(Front(u), d, v[n]);
      }
    } else {
      Leaves(Front(u), d);
    }
  }

  lemma SlugIsBuiltFrom(u: string)
    requires Words(u) != []
    ensures u != "" && Built(u) == Front(u) + Dashes(Words(u)) + Back(u)
    ensures Dashes(Words(u)) != "" && IsAlnum(Dashes(Words(u))[0]) && Dashes(Words(u))[0] != '-'
    ensures Dashes(Words(u))[|Dashes(Words(u))| - 1] != '-'
  {
    hide Dashes, IsLetterOrDigit;
    WordsAreAlnum(u);
    EndsWell(Words(u));
    DashIsNoLetter();
  }

  lemma DashIsNoLetter()
    ensures !IsAlnum('-')
  {}

  lemma TrimFront(front: string, s: string)
    requires front in {"", "-"} && s != "" && s[0] != '-'
    ensures TrimLeftDashes(front + s) == s
  {
    assert TrimLeftDashes(s) == s;
    if front == "" { assert "" + s == s; } else { assert ("-" + s)[1..] == s; }
  }

  lemma TrimBack(s: string, back: string)
    requires back in {"", "-"} && s != "" && s[|s| - 1] != '-'
    ensures TrimRightDashes(s + back) == s
  {
    assert TrimRightDashes(s) == s;
    if back == "" { assert s + "" == s; } else { assert (s + "-")[..|s|] == s && (s + "-")[|s|] == '-'; }
  }

  lemma TrimOuterDashes(front: string, s: string, back: string)
    requires front in {"", "-"} && back in {"", "-"}
    requires s != "" && s[0] != '-' && s[|s| - 1] != '-'
    ensures TrimDashes(front + s + back) == s
  {
    hide TrimLeftDashes, TrimRightDashes;
    assert front + s + back == front + (s + back);
    TrimFront(front, s + back);
    TrimBack(s, back);
  }

  lemma TrimsToNothing()
    ensures TrimDashes("-") == "" && TrimDashes("") == ""
  {}

  /**
   The ID is the words of the lower-case name with one dash between each two, so two letters of it are side by side if
   and only if nothing stood between them in the name; a name without words has the default ID.
   */
  lemma SkillIdInWords(value: string)
    ensures var ws := Words(Text.ToLower(Text.TrimSpace(value)));
            SkillId(value) == if ws == [] then "skill" else Dashes(ws)
  {
    hide Slug, Words, Dashes, TrimDashes, Text.TrimSpace, Text.ToLower, IsLetterOrDigit;
    var v := Text.Normalize(value);
    SlugIsBuilt(v);
    TrimsToNothing();
    if Words(v) != [] {
      SlugIsBuiltFrom(v);
      TrimOuterDashes(Front(v), Dashes(Words(v)), Back(v));
    }
  }

  // ----- paths below the data directory

  const CATALOG_PATH := "skills/catalog.json"

  function SkillDir(id: string): string {
    "skills/" + id + "/"
  }

  function ManagedPath(id: string): string {
    SkillDir(id) + "SKILL.md"
  }

  predicate Inside(path: string, dir: string) {
    |dir| <= |path| && path[..|dir|] == dir
  }

  lemma SlugHasNoSlash(id: string)
    requires IsSlug(id)
    ensures '/' !in id && '.' !in id
  {
    forall c | c in id ensures c != '/' && c != '.' {
      var i :| 0 <= i < |id| && id[i] == c;
      assert IsAlnum(id[i]) || id[i] == '-';
    }
  }

  lemma CutSlash(a: string, b: string, x: string, y: string)
    requires '/' !in a && '/' !in b && a + "/" + x == b + "/" + y
    ensures a == b
  {
    var s := a + "/" + x;
    assert s[|a|] == '/' && s[|b|] == '/';
    assert forall i :: 0 <= i < |a| ==> s[i] == a[i];
    assert forall i :: 0 <= i < |b| ==> s[i] == b[i];
    assert |a| == |b|;
    assert a == s[..|a|] && b == s[..|b|];
  }

  /** One skill's directory holds no other skill's file, and not the catalog. */
  lemma DirectoriesAreApart(id: string, other: string)
    requires IsSlug(id) && IsSlug(other)
    ensures Inside(ManagedPath(other), SkillDir(id)) ==> other == id
    ensures Inside(ManagedPath(id), SkillDir(id))
    ensures !Inside(CATALOG_PATH, SkillDir(id))
    ensures ManagedPath(id) != CATALOG_PATH
  {
    SlugHasNoSlash(id);
    SlugHasNoSlash(other);
    var prefix := "skills/";
    if Inside(ManagedPath(other), SkillDir(id)) {
      var rest := ManagedPath(other)[|SkillDir(id)|..];
      assert ManagedPath(other) == SkillDir(id) + rest;
      assert ManagedPath(other)[|prefix|..] == other + "/" + "SKILL.md";
      assert (SkillDir(id) + rest)[|prefix|..] == id + "/" + rest;
      CutSlash(other, id, "SKILL.md", rest);
    }
    assert SkillDir(id)[|SkillDir(id)| - 1] == '/';
    assert forall i :: 7 <= i < |CATALOG_PATH| ==> CATALOG_PATH[i] != '/';
    assert ManagedPath(id)[..|SkillDir(id)|] == SkillDir(id);
  }
}
