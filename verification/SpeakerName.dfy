/** A group member's display name as one bounded line (cmd/dirextalk-agent/core_group_agent.go,
    sanitizeGroupAgentSpeakerName). */
module SpeakerName {
  import opened Common
  import opened Utf8

  const MAX_RUNES := 64

  /** Characters that separate words: space, control characters and the replacement character. */
  predicate Separator(c: char) {
    IsSpace(c) || IsControl(c) || c == '\U{fffd}'
  }

  datatype Scan = Scan(out: string, space: bool)

  /** The words of `v` joined by single spaces, and whether a separator is pending. */
  function Words(v: string): Scan {
    if v == [] then Scan("", false) else Next(Words(v[..|v| - 1]), v[|v| - 1])
  }

  function Next(w: Scan, c: char): Scan {
    if Separator(c) then Scan(w.out, w.out != "") else Scan(w.out + Gap(w) + [c], false)
  }

  function Gap(w: Scan): string {
    if w.space then " " else ""
  }

  function Take(s: string, n: nat): string {
    if |s| <= n then s else s[..n]
  }

  function Name(v: string): string {
    Trim(Take(Words(v).out, MAX_RUNES))
  }

  /** One line: nothing but single spaces between words, within the limit. */
  ghost predicate Tidy(s: string) {
    Spaced(s) && |s| <= MAX_RUNES && (s != [] ==> s[|s| - 1] != ' ')
  }

  ghost predicate Spaced(s: string) {
    && (forall i | 0 <= i < |s| :: s[i] == ' ' || !Separator(s[i]))
    && (forall i | 0 < i < |s| :: !(s[i] == ' ' && s[i - 1] == ' '))
    && (s != [] ==> s[0] != ' ')
  }

  // ---- What the words are. ----

  lemma SpacedAppend(s: string, c: char)
    requires Spaced(s) && (c == ' ' || !Separator(c)) && (c == ' ' ==> s != [] && s[|s| - 1] != ' ')
    ensures Spaced(s + [c])
  {
    hide Separator;
  }

  lemma {:induction false} WordsAreTidy(v: string)
    ensures var w := Words(v); Spaced(w.out) && (w.out != [] ==> w.out[|w.out| - 1] != ' ') && (w.space ==> w.out != "")
    decreases |v|
  {
    assert Separator(' ') && Spaced("");
    hide Separator, Spaced;
    if v != [] {
      var w, c := Words(v[..|v| - 1]), v[|v| - 1];
      WordsAreTidy(v[..|v| - 1]);
      if !Separator(c) {
        if w.space {
          SpacedAppend(w.out, ' ');
          SpacedAppend(w.out + " ", c);
        } else {
          assert w.out + "" == w.out;
          SpacedAppend(w.out, c);
        }
      }
    }
  }

  /** Reading further only appends. */
  lemma {:induction false} WordsGrow(v: string, n: nat)
    requires n <= |v|
    ensures Words(v[..n]).out <= Words(v).out
    decreases |v| - n
  {
    if n < |v| {
      WordsGrow(v, n + 1);
      assert v[..n + 1][..n] == v[..n];
    } else {
      assert v[..n] == v;
    }
  }

  function Letters(v: string): string {
    if v == [] then [] else Letters(v[..|v| - 1]) + if Separator(v[|v| - 1]) then [] else [v[|v| - 1]]
  }

  lemma LettersAppend(s: string, c: char)
    ensures Letters(s + [c]) == Letters(s) + if Separator(c) then [] else [c]
  {
    assert (s + [c])[..|s|] == s;
  }

  /** Joining words keeps every character that is not a separator, in order. */
  lemma {:induction false} WordsKeepLetters(v: string)
    ensures Letters(Words(v).out) == Letters(v)
    decreases |v|
  {
    if v != [] {
      var w, c := Words(v[..|v| - 1]), v[|v| - 1];
      WordsKeepLetters(v[..|v| - 1]);
      if !Separator(c) {
        if w.space {
          LettersAppend(w.out, ' ');
          LettersAppend(w.out + " ", c);
        } else {
          assert w.out + "" == w.out;
          LettersAppend(w.out, c);
        }
      }
    }
  }

  /** The maximal runs of characters that are neither space, control nor replacement characters. */
  function Fields(v: string): (r: seq<string>)
    ensures v != [] && !Separator(v[|v| - 1]) ==> r != []
  {
    if v == [] then []
    else
      var n := |v| - 1;
      var fs := Fields(v[..n]);
      if IsSpace(v[n]) || IsControl(v[n]) || v[n] == '\U{fffd}' then fs
      else if n == 0 || Separator(v[n - 1]) then fs + [[v[n]]]
      else fs[|fs| - 1 := fs[|fs| - 1] + [v[n]]]
  }

  function Joined(fs: seq<string>): string {
    if fs == [] then "" else Joined(fs[..|fs| - 1]) + (if |fs| == 1 then "" else " ") + fs[|fs| - 1]
  }

  /** The words are the fields of the text, joined by single spaces. */
  lemma {:induction false} WordsAreFields(v: string)
    ensures Words(v).out == Joined(Fields(v))
    ensures Words(v).space <==> v != [] && Separator(v[|v| - 1]) && Fields(v) != []
    ensures Words(v).out == "" <==> Fields(v) == []
    decreases |v|
  {
    assert Joined([]) == "";
    if v != [] {
      var n := |v| - 1;
      var u, c := v[..n], v[n];
      WordsAreFields(u);
      var w, fs := Words(u), Fields(u);
      assert Words(v) == Next(w, c);
      assert Fields(v) == if Separator(c) then fs
                          else if n == 0 || Separator(u[n - 1]) then fs + [[c]]
                          else fs[|fs| - 1 := fs[|fs| - 1] + [c]];
      assert n == 0 ==> fs == [];
      hide Words, Fields, Joined, Separator;
      if !Separator(c) && n > 0 && !Separator(u[n - 1]) {
        JoinedGrows(fs, c);
      } else if !Separator(c) {
        JoinedAppends(fs, [c]);
      }
    }
  }

  lemma JoinedGrows(fs: seq<string>, c: char)
    requires fs != []
    ensures Joined(fs[|fs| - 1 := fs[|fs| - 1] + [c]]) == Joined(fs) + [c]
  {
    var gs := fs[|fs| - 1 := fs[|fs| - 1] + [c]];
    assert gs[..|gs| - 1] == fs[..|fs| - 1];
  }

  lemma JoinedAppends(fs: seq<string>, word: string)
    ensures Joined(fs + [word]) == Joined(fs) + (if fs == [] then "" else " ") + word
  {
    assert (fs + [word])[..|fs|] == fs;
  }

  /** Tidy text is its own words. */
  lemma {:induction false} WordsOfTidy(s: string)
    requires Spaced(s)
    ensures var w := Words(s); if s != [] && s[|s| - 1] == ' ' then w == Scan(s[..|s| - 1], true)
              else w == Scan(s, false)
    decreases |s|
  {
    assert Separator(' ');
    hide Separator;
    if s != [] {
      WordsOfTidy(s[..|s| - 1]);
      assert s == s[..|s| - 1] + [s[|s| - 1]];
    }
  }

  lemma TrimOfSpaced(s: string)
    requires Spaced(s)
    ensures Trim(s) == if s != [] && s[|s| - 1] == ' ' then s[..|s| - 1] else s
  {
    if s != [] {
      assert !IsSpace(s[0]) && TrimLeft(s) == s;
      if s[|s| - 1] == ' ' {
        var t := s[..|s| - 1];
        assert t[|t| - 1] == s[|s| - 2] && !IsSpace(t[|t| - 1]);
        assert TrimRight(t) == t;
      } else {
        assert TrimRight(s) == s;
      }
    }
  }

  lemma TakeSpaced(s: string, n: nat)
    requires Spaced(s)
    ensures Spaced(Take(s, n))
  {
  }

  /** A cleaned name is tidy: at most 64 characters, single inner spaces, no other space, no control characters. */
  lemma NameIsTidy(v: string)
    ensures Tidy(Name(v)) && |Name(v)| <= 64
    ensures forall c | c in Name(v) :: c == ' ' || (!IsSpace(c) && !IsControl(c) && c != '\U{fffd}')
  {
    hide Words, Trim;
    WordsAreTidy(v);
    TakeSpaced(Words(v).out, MAX_RUNES);
    TrimOfSpaced(Take(Words(v).out, MAX_RUNES));
  }

  /** A name is the longest start of the joined fields of at most 64 characters, without a space at its end. */
  lemma NameIsFirstFields(v: string)
    ensures var j := Joined(Fields(v));
            && Name(v) <= j
            && (|j| <= 64 ==> Name(v) == j)
            && (|j| > 64 ==> |Name(v)| == if j[63] == ' ' then 63 else 64)
  {
    hide Words, Trim, Fields, Joined;
    WordsAreFields(v);
    WordsAreTidy(v);
    TakeSpaced(Words(v).out, MAX_RUNES);
    TrimOfSpaced(Take(Words(v).out, MAX_RUNES));
  }

  /** A tidy name is left as it is, so cleaning twice is cleaning once. */
  lemma NameOfTidy(s: string)
    requires Tidy(s)
    ensures Name(s) == s
  {
    hide Words, Trim;
    WordsOfTidy(s);
    TrimOfSpaced(s);
  }

  lemma NameIsIdempotent(v: string)
    ensures Name(Name(v)) == Name(v)
  {
    hide Name, Tidy;
    NameIsTidy(v);
    NameOfTidy(Name(v));
  }

  /** `sanitizeGroupAgentSpeakerName` on bytes; ill-formed text gives no name. */
  method SanitizeSpeakerName(raw: seq<Byte>) returns (name: string)
    ensures name == if Valid(raw) then Name(Decode(raw)) else ""
  {
    hide Valid, Decode, Separator, Trim, Name;
    if !Valid(raw) {
      return "";
    }
    var whole := Decode(raw);
    var value := Trim(whole);
    var out, space, written := "", false, 0;
    TrimKeepsName(whole);
    assert value[..0] == "";
    for i := 0 to |value|
      invariant Scan(out, space) == Words(value[..i])
      invariant written == |out| <= MAX_RUNES
    {
      assert value[..i + 1][..i] == value[..i];
      if Separator(value[i]) {
        space := |out| > 0;
        continue;
      }
      if space {
        out := out + " ";
        written := written + 1;
        space := false;
      }
      if written >= MAX_RUNES {
        Cut(value, i, out);
        return Trim(out);
      }
      out := out + [value[i]];
      written := written + 1;
    }
    assert value[..|value|] == value;
    ShortName(value);
    name := Trim(out);
  }

  lemma ShortName(v: string)
    requires |Words(v).out| <= MAX_RUNES
    ensures Trim(Words(v).out) == Name(v)
  {
    hide Words, Trim;
  }

  /** Stopping at the limit, possibly one pending space past it, leaves the same name. */
  lemma Cut(v: string, i: nat, out: string)
    requires i < |v| && !Separator(v[i]) && out == Words(v[..i]).out + Gap(Words(v[..i])) && MAX_RUNES <= |out|
    requires |Words(v[..i]).out| <= MAX_RUNES
    ensures Trim(out) == Name(v)
  {
    hide Trim, Separator;
    var w := Words(v[..i]);
    assert v[..i + 1][..i] == v[..i];
    assert Words(v[..i + 1]).out == out + [v[i]];
    WordsGrow(v, i + 1);
    hide Words;
    WordsAreTidy(v);
    CutSpaced(Words(v).out, out);
  }

  lemma CutSpaced(full: string, out: string)
    requires Spaced(full) && out <= full && MAX_RUNES <= |out| < |full|
    requires |out| == MAX_RUNES || (|out| == MAX_RUNES + 1 && out[MAX_RUNES] == ' ')
    ensures Trim(out) == Trim(Take(full, MAX_RUNES))
  {
    hide Trim, Separator;
    assert out == full[..|out|];
    if |out| == MAX_RUNES + 1 {
      TakeSpaced(full, |out|);
      TakeSpaced(full, MAX_RUNES);
      TrimOfSpaced(out);
      TrimOfSpaced(full[..MAX_RUNES]);
      assert full[MAX_RUNES] == ' ' && full[MAX_RUNES - 1] != ' ';
    }
  }

  /** Surrounding space does not matter. */
  lemma TrimKeepsName(v: string)
    ensures Name(Trim(v)) == Name(v)
  {
    hide Separator;
    TrimLeftKeeps(v);
    TrimRightKeeps(TrimLeft(v));
  }

  lemma {:induction false} TrimRightKeeps(v: string)
    ensures Words(TrimRight(v)).out == Words(v).out
    decreases |v|
  {
    if v != [] && IsSpace(v[|v| - 1]) {
      TrimRightKeeps(v[..|v| - 1]);
    }
  }

  lemma {:induction false} TrimLeftKeeps(v: string)
    ensures Words(TrimLeft(v)) == Words(v)
    decreases |v|
  {
    if v != [] && IsSpace(v[0]) {
      TrimLeftKeeps(v[1..]);
      SpaceInFront(v);
    }
  }

  lemma {:induction false} SpaceInFront(v: string)
    requires v != [] && Separator(v[0])
    ensures Words(v) == Words(v[1..])
    decreases |v|
  {
    if |v| > 1 {
      SpaceInFront(v[..|v| - 1]);
      assert v[..|v| - 1][1..] == v[1..][..|v| - 2];
    }
  }
}
