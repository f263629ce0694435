/** The translation lookup of app/contexts/LanguageContext.tsx: the provider's
    `language` state and `t(key, params)`, which fills `{name}` placeholders
    one parameter at a time with `String.prototype.replace`. */
module Translation {
  import opened Wrappers

  datatype Language = En | Zh

  /** The static tables of app/lib/i18n.ts: language -> key -> text. */
  type Tables = map<Language, map<string, string>>

  // ---- String.prototype.replace with a string pattern --------------------------

  /** `s[i..]` starts with `pat`. */
  predicate OccursAt(s: string, pat: string, i: nat)
  {
    i + |pat| <= |s| && s[i..i + |pat|] == pat
  }

  /** `s.indexOf(pat)`: the first position where `pat` occurs. */
  function IndexOf(s: string, pat: string, from: nat := 0): (r: Option<nat>)
    requires from <= |s| + 1
    ensures r.Some? ==> from <= r.value && OccursAt(s, pat, r.value)
    ensures r.Some? ==> forall j :: from <= j < r.value ==> !OccursAt(s, pat, j)
    ensures r.None? ==> forall j :: from <= j ==> !OccursAt(s, pat, j)
    decreases |s| + 1 - from
  {
    if from + |pat| > |s| then None
    else if s[from..from + |pat|] == pat then Some(from)
    else IndexOf(s, pat, from + 1)
  }

  /** The replacement text with its `$` patterns expanded, for a match with
      no capture groups: `$$` is `$`, `$&` the matched text, `` $` `` the text
      before the match and `$'` the text after it; every other character,
      `$1` and `$<` included, stands for itself. */
  function Expand(template: string, before: string, matched: string, after: string): (r: string)
    ensures template == "$$" ==> r == "$"
    ensures template == "$&" ==> r == matched
    ensures template == "$`" ==> r == before
    ensures template == "$'" ==> r == after
    ensures template == "$1" ==> r == "$1"
    ensures template == "$" ==> r == "$"
    decreases |template|
  {
    if |template| == 0 then ""
    else if template[0] == '$' && |template| >= 2 && template[1] in "$&`'" then
      var piece := match template[1]
        case '$' => "$"
        case '&' => matched
        case '`' => before
        case _ => after;
      piece + Expand(template[2..], before, matched, after)
    else [template[0]] + Expand(template[1..], before, matched, after)
  }

  /** IndexOf finds the first occurrence at or after `from`. */
  lemma IndexOfFirst(s: string, pat: string, from: nat, i: nat)
    requires from <= i && OccursAt(s, pat, i)
    requires forall j :: from <= j < i ==> !OccursAt(s, pat, j)
    ensures IndexOf(s, pat, from) == Some(i)
  {
  }

  /** A replacement without `$` is inserted literally. */
  lemma {:induction false} ExpandLiteral(template: string, before: string, matched: string, after: string)
    ensures '$' !in template ==> Expand(template, before, matched, after) == template
  {
    if |template| > 0 && '$' !in template {
      assert '$' !in template[1..];
      ExpandLiteral(template[1..], before, matched, after);
    }
  }

  /** `s.replace(pat, rep)`: only the first occurrence is replaced. The text
      before it and everything after it are kept; with no occurrence the
      text is unchanged. */
  function ReplaceFirst(s: string, pat: string, rep: string): (r: string)
    ensures IndexOf(s, pat).None? ==> r == s
    ensures IndexOf(s, pat).Some? ==>
      var i := IndexOf(s, pat).value;
      && |s| - |pat| <= |r|
      && r[..i] == s[..i]
      && r[|r| - (|s| - i - |pat|)..] == s[i + |pat|..]
      && ('$' !in rep ==> r == s[..i] + rep + s[i + |pat|..])
  {
    match IndexOf(s, pat)
    case None => s
    case Some(i) =>
      ExpandLiteral(rep, s[..i], pat, s[i + |pat|..]);
      s[..i] + Expand(rep, s[..i], pat, s[i + |pat|..]) + s[i + |pat|..]
  }

  /** A second occurrence of the pattern survives a replace. */
  lemma ReplaceKeepsLaterOccurrence(s: string, pat: string, rep: string, j: nat)
    requires IndexOf(s, pat).Some? && IndexOf(s, pat).value + |pat| <= j && OccursAt(s, pat, j)
    ensures var r := ReplaceFirst(s, pat, rep);
      OccursAt(r, pat, j - |s| + |r|)
  {
    var i := IndexOf(s, pat).value;
    var tail := s[i + |pat|..];
    var d := j - i - |pat|;
    assert OccursAt(tail, pat, d) by {
      assert tail[d..d + |pat|] == s[j..j + |pat|];
    }
    var r := ReplaceFirst(s, pat, rep);
    assert |tail| == |s| - i - |pat|;
    assert r[|r| - |tail|..] == tail;
    OccursInSuffix(r, tail, pat, d);
  }

  /** An occurrence inside a suffix is an occurrence in the whole text. */
  lemma OccursInSuffix(r: string, tail: string, pat: string, d: nat)
    requires |tail| <= |r| && r[|r| - |tail|..] == tail && OccursAt(tail, pat, d)
    ensures OccursAt(r, pat, |r| - |tail| + d)
  {
    var k := |r| - |tail|;
    assert r[k + d..k + d + |pat|] == r[k..][d..d + |pat|];
  }

  // ---- placeholder substitution ------------------------------------------------

  function Placeholder(name: string): string
  {
    "{" + name + "}"
  }

  /** The text after substituting `params` in order, each step replacing the
      first `{name}` of the previous step's result. */
  function SubstituteAll(text: string, params: seq<(string, string)>): (r: string)
    ensures |params| == 0 ==> r == text
    ensures |params| == 1 ==> r == ReplaceFirst(text, Placeholder(params[0].0), params[0].1)
  {
    if |params| == 0 then text
    else
      var last := params[|params| - 1];
      ReplaceFirst(SubstituteAll(text, params[..|params| - 1]), Placeholder(last.0), last.1)
  }

  /** Substituting one list after another is substituting their
      concatenation: each parameter acts on the previous step's result. */
  lemma {:induction false} SubstituteAllAppend(text: string, p: seq<(string, string)>, q: seq<(string, string)>)
    ensures SubstituteAll(text, p + q) == SubstituteAll(SubstituteAll(text, p), q)
    decreases |q|
  {
    if |q| == 0 {
      assert p + q == p;
    } else {
      assert (p + q)[..|p + q| - 1] == p + q[..|q| - 1];
      SubstituteAllAppend(text, p, q[..|q| - 1]);
    }
  }

  /** Parameters whose placeholders do not occur leave the text unchanged. */
  lemma {:induction false} SubstituteAbsent(text: string, params: seq<(string, string)>)
    requires forall k :: 0 <= k < |params| ==> IndexOf(text, Placeholder(params[k].0)).None?
    ensures SubstituteAll(text, params) == text
  {
    if |params| > 0 {
      SubstituteAbsent(text, params[..|params| - 1]);
    }
  }

  /** Later parameters see earlier substitutions: a value that itself holds a
      placeholder is rewritten by the parameter it names. */
  lemma SubstitutionIsSequential(a: string, b: string, x: string)
    requires '$' !in b && '$' !in x
    ensures SubstituteAll(Placeholder(a), [(a, Placeholder(b)), (b, x)]) == x
  {
    ReplaceWhole(Placeholder(a), Placeholder(b));
    ReplaceWhole(Placeholder(b), x);
    var ps := [(a, Placeholder(b)), (b, x)];
    assert ps[..1] == [(a, Placeholder(b))] && ps[..1][..0] == [];
    assert SubstituteAll(Placeholder(a), ps[..1]) == Placeholder(b);
  }

  /** A text that is exactly the placeholder becomes the value. */
  lemma ReplaceWhole(pat: string, rep: string)
    requires '$' !in rep
    ensures ReplaceFirst(pat, pat, rep) == rep
  {
    IndexOfFirst(pat, pat, 0, 0);
    assert pat[..0] == "" && pat[|pat|..] == "";
  }

  /** Names without braces: one placeholder never occurs inside another's. */
  lemma PlaceholdersDistinct(a: string, b: string)
    requires a != b && '{' !in a && '}' !in a
    ensures IndexOf(Placeholder(a), Placeholder(b)).None?
  {
    var s, pat := Placeholder(a), Placeholder(b);
    forall j: nat | OccursAt(s, pat, j) ensures false {
      assert s[j] == pat[0] == '{';
      assert j == 0;
      assert s[|pat| - 1] == '}';
      if |b| == |a| {
        assert forall k :: 0 <= k < |a| ==> a[k] == s[k + 1] == pat[k + 1] == b[k];
      }
    }
  }

  /** ... and so the order of the parameters matters: in the other order
      the inserted placeholder stays. */
  lemma SubstitutionOrderMatters(a: string, b: string, x: string)
    requires a != b && '{' !in a && '}' !in a && '$' !in b
    ensures SubstituteAll(Placeholder(a), [(b, x), (a, Placeholder(b))]) == Placeholder(b)
  {
    PlaceholdersDistinct(a, b);
    ReplaceWhole(Placeholder(a), Placeholder(b));
    var ps := [(b, x), (a, Placeholder(b))];
    assert ps[..1] == [(b, x)] && ps[..1][..0] == [];
    assert SubstituteAll(Placeholder(a), ps[..1]) == Placeholder(a);
  }

  /** An entry with one placeholder and no `{` before it: substituting a
      `$`-free value puts the value in the placeholder's place. */
  lemma OnePlaceholder(prefix: string, name: string, suffix: string, value: string)
    requires '{' !in prefix && '$' !in value
    ensures SubstituteAll(prefix + Placeholder(name) + suffix, [(name, value)]) == prefix + value + suffix
  {
    var s, pat := prefix + Placeholder(name) + suffix, Placeholder(name);
    var i := |prefix|;
    assert s[i..i + |pat|] == pat;
    forall j | 0 <= j < i ensures !OccursAt(s, pat, j) {
      assert s[j] == prefix[j] != '{';
    }
    IndexOfFirst(s, pat, 0, i);
    assert s[..i] == prefix && s[i + |pat|..] == suffix;
    assert [(name, value)][..0] == [];
  }

  /** The payment modal's price line, `t('payAmount', { amount })`, with the
      English text of app/lib/i18n.ts. */
  lemma PayAmountLine(amount: string)
    requires '$' !in amount
    ensures SubstituteAll("Pay {amount} USDC per image", [("amount", amount)]) == "Pay " + amount + " USDC per image"
  {
    assert "Pay " + Placeholder("amount") + " USDC per image" == "Pay {amount} USDC per image";
    OnePlaceholder("Pay ", "amount", " USDC per image", amount);
  }

  // ---- the provider ---------------------------------------------------------------

  /** `LanguageProvider`: the current language (initially English) and the
      tables. Every key of the English table exists in every table, as the
      `TranslationKey` type demands. */
  class LanguageProvider {
    var language: Language
    const tables: Tables

    ghost predicate Valid()
      reads this
    {
      En in tables && Zh in tables && tables[En].Keys <= tables[Zh].Keys
    }

    /** The table of the current language; it has every English key. */
    function Table(): (table: map<string, string>)
      reads this
      requires Valid()
      ensures tables[En].Keys <= table.Keys
    {
      if language == En then tables[En] else tables[Zh]
    }

    constructor (tables: Tables)
      requires En in tables && Zh in tables && tables[En].Keys <= tables[Zh].Keys
      ensures Valid() && language == En && this.tables == tables
    {
      this.language := En;
      this.tables := tables;
    }

    /** `setLanguage(lang)`: later `T` calls read the new language's table. */
    method SetLanguage(lang: Language)
      requires Valid()
      modifies this
      ensures Valid() && language == lang
    {
      language := lang;
    }

    /** `t(key, params)`: without parameters the table entry as it is; with
        parameters, listed in `Object.keys` order, each one substituted in turn. */
    method T(key: string, params: Option<seq<(string, string)>>) returns (text: string)
      requires Valid() && key in tables[En]
      ensures params.None? ==> text == Table()[key]
      ensures params.Some? ==> text == SubstituteAll(Table()[key], params.value)
    {
      text := Table()[key];
      if params.Some? {
        var ps := params.value;
        var i := 0;
        while i < |ps|
          invariant 0 <= i <= |ps|
          invariant text == SubstituteAll(Table()[key], ps[..i])
        {
          assert ps[..i + 1][..i] == ps[..i];
          text := ReplaceFirst(text, Placeholder(ps[i].0), ps[i].1);
          i := i + 1;
        }
        assert ps[..|ps|] == ps;
      }
    }
  }

  /** A client of the provider: the English price line, then the same key
      after switching to Chinese. */
  method PriceLines(amount: string) returns (en: string, zh: string)
    requires '$' !in amount
    ensures en == "Pay " + amount + " USDC per image"
    ensures zh == "每张图片 " + amount + " USDC"
  {
    // "每张图片 {amount} USDC"
    var zhEntry := "每张图片 " + Placeholder("amount") + " USDC";
    var p := new LanguageProvider(map[En := map["payAmount" := "Pay {amount} USDC per image"],
                                      Zh := map["payAmount" := zhEntry]]);
    en := p.T("payAmount", Some([("amount", amount)]));
    PayAmountLine(amount);
    p.SetLanguage(Zh);
    zh := p.T("payAmount", Some([("amount", amount)]));
    OnePlaceholder("每张图片 ", "amount", " USDC", amount);
  }
}
