/** The code block renderer: the language named in the class name, the style
    chosen for it, whether the highlighter is used, and the text it gets. */
module CodeBlock {
  import opened Wrappers
  import opened Strings

  /** The characters of the regex class `\w`. */
  predicate WordChar(c: char) {
    'a' <= c <= 'z' || 'A' <= c <= 'Z' || '0' <= c <= '9' || c == '_'
  }

  const Prefix := "language-"

  /** `language-(\w+)` matches at position `i`. */
  predicate MatchAt(s: string, i: int) {
    0 <= i && i + |Prefix| < |s| && s[i..i + |Prefix|] == Prefix && WordChar(s[i + |Prefix|])
  }

  /** The longest run of word characters at the start of `s`: what the
      greedy `\w+` captures. */
  function WordRun(s: string): (r: string)
    ensures StartsWith(s, r)
    ensures forall i :: 0 <= i < |r| ==> WordChar(r[i])
    ensures |r| == |s| || !WordChar(s[|r|])
    decreases |s|
  {
    if s != [] && WordChar(s[0]) then [s[0]] + WordRun(s[1..]) else ""
  }

  /** The captured language of the leftmost match, or `None` when the class
      name has no match. */
  function Match(s: string): (r: Option<string>)
    ensures r.None? <==> forall i :: 0 <= i < |s| ==> !MatchAt(s, i)
    ensures r.Some? ==> exists i :: MatchAt(s, i) && (forall j :: 0 <= j < i ==> !MatchAt(s, j)) &&
                                    r.value == WordRun(s[i + |Prefix|..])
    decreases |s|
  {
    if s == [] then None
    else if MatchAt(s, 0) then Some(WordRun(s[|Prefix|..]))
    else
      var r := Match(s[1..]);
      assert forall i :: 0 < i < |s| ==> (MatchAt(s, i) <==> MatchAt(s[1..], i - 1)) by {
        forall i | 0 < i < |s| ensures MatchAt(s, i) <==> MatchAt(s[1..], i - 1) {
          MatchAtShift(s, i);
        }
      }
      if r.Some? then
        var i :| MatchAt(s[1..], i) && (forall j :: 0 <= j < i ==> !MatchAt(s[1..], j)) &&
                 r.value == WordRun(s[1..][i + |Prefix|..]);
        assert MatchAt(s, i + 1);
        assert s[1..][i + |Prefix|..] == s[i + 1 + |Prefix|..];
        assert forall j :: 0 <= j < i + 1 ==> !MatchAt(s, j) by {
          forall j | 0 <= j < i + 1 ensures !MatchAt(s, j) {
            if j > 0 {
              assert !MatchAt(s[1..], j - 1);
            }
          }
        }
        r
      else
        r
  }

  /** A match one position further into `s` is a match in its tail. */
  lemma MatchAtShift(s: string, i: int)
    requires 0 < i < |s|
    ensures MatchAt(s, i) <==> MatchAt(s[1..], i - 1)
  {
    var t := s[1..];
    if i + |Prefix| < |s| {
      var a, b := s[i..i + |Prefix|], t[i - 1..i - 1 + |Prefix|];
      assert forall k :: 0 <= k < |a| ==> a[k] == b[k];
      assert a == b;
      assert s[i + |Prefix|] == t[i - 1 + |Prefix|];
    }
  }

  /** A captured language is a non-empty run of word characters. */
  lemma MatchIsWord(s: string)
    requires Match(s).Some?
    ensures Match(s).value != "" && forall i :: 0 <= i < |Match(s).value| ==> WordChar(Match(s).value[i])
  {
    var i :| MatchAt(s, i) && (forall j :: 0 <= j < i ==> !MatchAt(s, j)) && Match(s).value == WordRun(s[i + |Prefix|..]);
    assert s[i + |Prefix|..][0] == s[i + |Prefix|];
  }

  /** The class name of a fenced block names its language. */
  lemma MatchOfFence(lang: string)
    requires lang != "" && forall i :: 0 <= i < |lang| ==> WordChar(lang[i])
    ensures Match(Prefix + lang) == Some(lang)
  {
    var s := Prefix + lang;
    assert MatchAt(s, 0) by {
      assert s[..|Prefix|] == Prefix;
      assert s[|Prefix|] == lang[0];
    }
    assert s[|Prefix|..] == lang;
    WordRunAll(lang);
  }

  lemma {:induction false} WordRunAll(s: string)
    requires forall i :: 0 <= i < |s| ==> WordChar(s[i])
    ensures WordRun(s) == s
    decreases |s|
  {
    if s != [] {
      WordRunAll(s[1..]);
      assert [s[0]] + s[1..] == s;
    }
  }

  /** `language`: the capture, or '' without a match; a missing class name
      is ''. */
  function Language(className: Option<string>): (r: string)
    ensures Match(Or(className, "")).None? ==> r == ""
    ensures Match(Or(className, "")).Some? ==> r == Match(Or(className, "")).value && r != ""
  {
    var m := Match(Or(className, ""));
    if m.Some? then MatchIsWord(Or(className, "")); m.value else ""
  }

  datatype Style = Tomorrow | Coy

  /** The style: coy for html and tomorrow for everything else, js and
      javascript included. */
  function StyleFor(language: string): (r: Style)
    ensures r == Coy <==> language == "html"
  {
    if language == "js" || language == "javascript" then Tomorrow
    else if language == "html" then Coy
    else Tomorrow
  }

  /** The text handed to the highlighter: one line break at the very end is
      removed. */
  function StripNewline(s: string): (r: string)
    ensures EndsWith(s, "\n") ==> r + "\n" == s
    ensures !EndsWith(s, "\n") ==> r == s
  {
    if EndsWith(s, "\n") then s[..|s| - 1] else s
  }

  /** Only one line break goes: a text ending in two keeps one. */
  lemma StripsOne(t: string)
    ensures StripNewline(t + "\n\n") == t + "\n"
  {
    assert EndsWith(t + "\n\n", "\n");
    assert (t + "\n\n")[..|t| + 1] == t + "\n";
  }

  /** What is rendered: the highlighter with a style, a language and the
      text, or a plain `code` element with the class name and the children. */
  datatype Rendered =
    | Highlighted(style: Style, language: string, text: string)
    | Plain(className: Option<string>, children: string)

  /** `CodeBlock({inline, className, children})`. */
  function Render(inline: bool, className: Option<string>, children: string): (r: Rendered)
    ensures r.Highlighted? <==> !inline && Match(Or(className, "")).Some?
    ensures r.Highlighted? ==> r.language == Language(className) && r.language != "" &&
                               r.style == StyleFor(r.language) && r.text == StripNewline(children)
    ensures r.Plain? ==> r == Plain(className, children)
  {
    var language := Language(className);
    if !inline && Match(Or(className, "")).Some? then Highlighted(StyleFor(language), language, StripNewline(children))
    else Plain(className, children)
  }
}
