/**
  The UAC2 module patcher (deploy/usbsink/uac2_name_patch.py): reducing a speaker name to a safe label,
  and overwriting the four stock interface strings of a module blob in place. Bytes are characters
  below 256; only ASCII is ever written.
 */
module NamePatch {
  const MAX_NAME_BYTES: nat := 14
  const MIC_SUFFIX: string := " Mic"
  const DEFAULT_NAME: string := "JTS"
  const NUL: char := '\0'

  predicate Allowed(c: char) {
    'A' <= c <= 'Z' || 'a' <= c <= 'z' || '0' <= c <= '9' || c in " .,'&()+-_#"
  }

  // ----- labels ---------------------------------------------------------------------------

  function Filter(s: string): (r: string)
    ensures forall c :: c in r ==> Allowed(c)
  {
    if s == "" then "" else (if Allowed(s[0]) then [s[0]] else "") + Filter(s[1..])
  }

  function WordLength(s: string): (n: nat)
    ensures n <= |s| && (forall k :: 0 <= k < n ==> s[k] != ' ') && (n < |s| ==> s[n] == ' ')
  {
    if s == "" || s[0] == ' ' then 0 else 1 + WordLength(s[1..])
  }

  // str.split(); of the allowed characters only the space is white.
  function Words(s: string): seq<string>
    decreases |s|
  {
    if s == "" then []
    else if s[0] == ' ' then Words(s[1..])
    else [s[..WordLength(s)]] + Words(s[WordLength(s)..])
  }

  function Join(words: seq<string>): string {
    if words == [] then "" else if |words| == 1 then words[0] else words[0] + " " + Join(words[1..])
  }

  function StripLeft(s: string): (r: string)
    ensures r != "" ==> r[0] != ' '
    ensures s != "" && s[0] != ' ' ==> r == s
  {
    if s != "" && s[0] == ' ' then StripLeft(s[1..]) else s
  }

  function StripRight(s: string): (r: string)
    ensures r <= s && (r != "" ==> r[|r| - 1] != ' ') && (forall k :: |r| <= k < |s| ==> s[k] == ' ')
  {
    if s != "" && s[|s| - 1] == ' ' then StripRight(s[..|s| - 1]) else s
  }

  // s[:limit]
  function Start(s: string, limit: nat): (r: string)
    ensures r <= s
  {
    if |s| <= limit then s else s[..limit]
  }

  function SanitizeName(name: string): string {
    var cleaned := Join(Words(Filter(name)));
    var cut := StripRight(StripLeft(Start(cleaned, MAX_NAME_BYTES)));
    if cut == "" then DEFAULT_NAME else cut
  }

  // The speaker's own part of the capture label.
  function MicrophoneBase(name: string): string {
    var limit := MAX_NAME_BYTES - |MIC_SUFFIX|;
    var cut := StripRight(Start(SanitizeName(name), limit));
    if cut == "" then StripRight(DEFAULT_NAME) else cut
  }

  function MicrophoneName(name: string): string { MicrophoneBase(name) + MIC_SUFFIX }

  // No leading, trailing or doubled space.
  ghost predicate Tidy(s: string) {
    && (s != "" ==> s[0] != ' ' && s[|s| - 1] != ' ')
    && forall j, k :: 0 <= j < |s| && 0 <= k < |s| && k == j + 1 ==> s[j] != ' ' || s[k] != ' '
  }

  // What a label must be to stand in any slot.
  ghost predicate Label(s: string) {
    0 < |s| <= MAX_NAME_BYTES && Tidy(s) && forall c :: c in s ==> Allowed(c)
  }

  predicate Word(w: string) { w != "" && ' ' !in w }

  lemma SplitsIntoWords(s: string)
    ensures forall w :: w in Words(s) ==> Word(w) && forall c :: c in w ==> c in s
    decreases |s|
  {
    if s != "" {
      SplitsIntoWords(if s[0] == ' ' then s[1..] else s[WordLength(s)..]);
    }
  }

  lemma JoinIsTidy(words: seq<string>)
    requires forall w :: w in words ==> Word(w)
    ensures Tidy(Join(words)) && (Join(words) == "" <==> words == [])
    ensures forall c :: c in Join(words) ==> c == ' ' || exists w :: w in words && c in w
  {
    if |words| > 1 {
      JoinIsTidy(words[1..]);
      var rest := Join(words[1..]);
      assert words[0] in words && Word(words[0]);
      forall k | 0 <= k < |Join(words)| - 1 ensures Join(words)[k] != ' ' || Join(words)[k + 1] != ' ' {
        if k > |words[0]| { assert Join(words)[k] == rest[k - |words[0]| - 1]; }
      }
    } else if |words| == 1 {
      assert words[0] in words && Word(words[0]);
    }
  }

  lemma SuffixIsTidy(s: string, n: nat)
    requires Tidy(s) && n < |s| && s[n] != ' '
    ensures Tidy(s[n..])
  {
    var rest := s[n..];
    forall k | 0 <= k < |rest| - 1 ensures rest[k] != ' ' || rest[k + 1] != ' ' {
      assert rest[k] == s[n + k] && rest[k + 1] == s[n + k + 1];
    }
  }

  lemma WordsStep(s: string)
    requires s != ""
    ensures Words(s) == if s[0] == ' ' then Words(s[1..]) else [s[..WordLength(s)]] + Words(s[WordLength(s)..])
  {
  }

  // A string that is one word.
  lemma OnlyWord(s: string)
    requires s != "" && s[0] != ' ' && WordLength(s) == |s|
    ensures Words(s) == [s]
  {
    WordsStep(s);
    assert Words("") == [];
    hide Words, WordLength;
    assert s[|s|..] == "" && s[..|s|] == s;
  }

  // A string that starts with a word and a space.
  lemma WordAndRest(s: string, n: nat)
    requires s != "" && s[0] != ' ' && n == WordLength(s) < |s|
    ensures Words(s) == [s[..n]] + Words(s[n + 1..])
  {
    WordsStep(s);
    WordsStep(s[n..]);
    hide Words, WordLength;
    assert s[n..][1..] == s[n + 1..];
  }

  lemma SpaceIsInner(s: string, n: nat)
    requires Tidy(s) && n < |s| && s[n] == ' '
    ensures 0 < n && n + 1 < |s| && s[n + 1] != ' '
  {
  }

  lemma FirstWord(s: string, n: nat)
    requires Tidy(s) && s != "" && n == WordLength(s)
    ensures n > 0 && n <= |s|
    ensures n == |s| ==> Words(s) == [s]
    ensures n < |s| ==> n + 1 < |s| && s[n + 1] != ' ' && Words(s) == [s[..n]] + Words(s[n + 1..])
  {
    hide Words, WordLength, Tidy;
    if s[0] == ' ' { SpaceIsInner(s, 0); }
    if n == |s| {
      OnlyWord(s);
    } else {
      SpaceIsInner(s, n);
      WordAndRest(s, n);
    }
  }

  // A tidy string is the join of its own words.
  lemma {:induction false} TidyRejoins(s: string)
    requires Tidy(s)
    ensures Join(Words(s)) == s && (s != "" ==> Words(s) != [])
    decreases |s|
  {
    if s != "" {
      var n := WordLength(s);
      FirstWord(s, n);
      if n < |s| {
        SuffixIsTidy(s, n + 1);
        TidyRejoins(s[n + 1..]);
        hide Words, WordLength, Tidy, Join;
        JoinCons(s[..n], Words(s[n + 1..]));
        SplitAt(s, n);
      }
    }
  }

  lemma JoinCons(w: string, words: seq<string>)
    requires words != []
    ensures Join([w] + words) == w + " " + Join(words)
  {
    assert ([w] + words)[1..] == words;
  }

  lemma SplitAt(s: string, n: nat)
    requires n < |s|
    ensures s == s[..n] + [s[n]] + s[n + 1..]
  {
  }

  lemma {:induction false} FilterConcat(a: string, b: string)
    ensures Filter(a + b) == Filter(a) + Filter(b)
  {
    hide Allowed;
    if a == "" {
      assert a + b == b;
    } else {
      FilterConcat(a[1..], b);
      assert (a + b)[1..] == a[1..] + b;
    }
  }

  /** Of a name exactly the characters that are not allowed are dropped, wherever they stand; so a label
      does not depend on them. */
  lemma DisallowedIsDropped(a: string, c: char, b: string)
    ensures Filter(a + [c] + b) == Filter(a) + (if Allowed(c) then [c] else "") + Filter(b)
    ensures !Allowed(c) ==> SanitizeName(a + [c] + b) == SanitizeName(a + b)
  {
    FilterConcat(a + [c], b);
    FilterConcat(a, [c]);
    FilterConcat(a, b);
    assert [c][1..] == "" && Filter([c]) == if Allowed(c) then [c] else "";
    assert Filter(a) + "" == Filter(a);
    hide Filter, Words, Join;
  }

  function NoSpaces(s: string): string {
    if s == "" then "" else (if s[0] == ' ' then "" else [s[0]]) + NoSpaces(s[1..])
  }

  function Concat(words: seq<string>): string { if words == [] then "" else words[0] + Concat(words[1..]) }

  /** Splitting loses nothing but spaces. */
  lemma {:induction false} WordsKeepCharacters(s: string)
    ensures Concat(Words(s)) == NoSpaces(s)
    decreases |s|
  {
    if s != "" {
      WordsStep(s);
      if s[0] == ' ' {
        WordsKeepCharacters(s[1..]);
      } else {
        var n := WordLength(s);
        WordsKeepCharacters(s[n..]);
        NoSpacesInWord(s, n);
        assert ([s[..n]] + Words(s[n..]))[1..] == Words(s[n..]);
      }
    }
  }

  lemma {:induction false} NoSpacesInWord(s: string, n: nat)
    requires n <= |s| && forall k :: 0 <= k < n ==> s[k] != ' '
    ensures NoSpaces(s) == s[..n] + NoSpaces(s[n..])
  {
    if n == 0 {
      assert s[0..] == s;
    } else {
      NoSpacesInWord(s[1..], n - 1);
      assert s[1..][n - 1..] == s[n..] && s[..n] == [s[0]] + s[1..][..n - 1];
    }
  }

  lemma FilterKeeps(s: string)
    requires forall c :: c in s ==> Allowed(c)
    ensures Filter(s) == s
  {
    if s != "" { assert s == [s[0]] + s[1..]; }
  }

  lemma PrefixIsTidy(s: string, n: nat)
    requires Tidy(s) && n <= |s|
    ensures Tidy(StripRight(s[..n])) && (n > 0 ==> StripRight(s[..n]) != "")
  {
    var cut := s[..n];
    if n > 0 { assert cut[0] == s[0] != ' '; }
  }

  // What is left of a name before it is cut to length.
  lemma CleanedIsTidy(name: string)
    ensures var cleaned := Join(Words(Filter(name))); Tidy(cleaned) && forall c :: c in cleaned ==> Allowed(c)
  {
    AllowedFacts();
    hide Allowed;
    SplitsIntoWords(Filter(name));
    JoinIsTidy(Words(Filter(name)));
  }

  // Cutting a tidy string to length leaves a tidy start of it.
  lemma CutIsTidy(s: string, n: nat)
    requires Tidy(s) && n <= |s| && (s == "" || n > 0)
    ensures var cut := StripRight(s[..n]); Tidy(cut) && cut <= s && (cut == "" <==> s == "")
    ensures StripRight(StripLeft(s[..n])) == StripRight(s[..n])
  {
    PrefixIsTidy(s, n);
    if n > 0 { assert s[..n][0] == s[0]; }
  }

  /** Every name is reduced to a label: bounded, allowed characters only, words kept apart by one
      space, never empty. */
  lemma SanitizedIsLabel(name: string)
    ensures Label(SanitizeName(name))
  {
    var cleaned := Join(Words(Filter(name)));
    CleanedIsTidy(name);
    AllowedFacts();
    hide Allowed, Words, Join, Filter;
    var r := Start(cleaned, MAX_NAME_BYTES);
    assert r == cleaned[..|r|];
    CutIsTidy(cleaned, |r|);
    assert forall c :: c in StripRight(r) ==> c in cleaned;
    assert Tidy(DEFAULT_NAME);
  }

  /** The names left alone are exactly the labels. */
  lemma LabelsAreFixed(name: string)
    ensures SanitizeName(name) == name <==> Label(name)
  {
    SanitizedIsLabel(name);
    if Label(name) {
      FilterKeeps(name);
      TidyRejoins(name);
    }
  }

  lemma SanitizeIsIdempotent(name: string)
    ensures SanitizeName(SanitizeName(name)) == SanitizeName(name)
  {
    SanitizedIsLabel(name);
    LabelsAreFixed(SanitizeName(name));
  }

  /** A label keeps the name's words, in order, up to the cut. */
  lemma SanitizeKeepsWords(name: string)
    ensures var cleaned := Join(Words(Filter(name)));
            && Words(cleaned) == Words(Filter(name))
            && SanitizeName(name) == if cleaned == "" then "JTS" else CutTo(cleaned, 14)
  {
    var words := Words(Filter(name));
    SplitsIntoWords(Filter(name));
    JoinIsTidy(words);
    WordsOfJoin(words);
    var cleaned := Join(words);
    hide Words, Filter;
    var r := Start(cleaned, MAX_NAME_BYTES);
    assert r == cleaned[..|r|];
    CutIsTidy(cleaned, |r|);
    StripIsCut(cleaned, MAX_NAME_BYTES);
  }

  lemma {:induction false} WordsOfJoin(words: seq<string>)
    requires forall w :: w in words ==> Word(w)
    ensures Words(Join(words)) == words
  {
    if words != [] {
      var s, w := Join(words), words[0];
      assert w in words;
      WordsOfJoin(words[1..]);
      if |words| > 1 {
        assert s[|w|..][1..] == Join(words[1..]);
        WordEnds(s, |w|);
        assert s[..|w|] == w;
      } else {
        WordEnds(s, |w|);
        assert s[..|w|] == w && s[|w|..] == "";
      }
      assert words == [w] + words[1..];
    }
  }

  // The first `limit` characters, less a space they would end in.
  function CutTo(s: string, limit: nat): string {
    if |s| <= limit then s
    else if limit > 0 && s[limit - 1] == ' ' then s[..limit - 1]
    else s[..limit]
  }

  lemma StripIsCut(s: string, limit: nat)
    requires Tidy(s)
    ensures StripRight(Start(s, limit)) == CutTo(s, limit)
  {
    var r := Start(s, limit);
    if |s| > limit && limit > 0 && s[limit - 1] == ' ' {
      SpaceIsInner(s, limit - 1);
      assert r[..|r| - 1] == s[..limit - 1];
      assert s[limit - 2] != ' ';
    }
  }

  lemma WordEnds(s: string, n: nat)
    requires n <= |s| && (forall k :: 0 <= k < n ==> s[k] != ' ') && (n < |s| ==> s[n] == ' ')
    ensures WordLength(s) == n
  {
  }

  lemma SuffixedIsLabel(s: string)
    requires Label(s) && |s| + |MIC_SUFFIX| <= MAX_NAME_BYTES
    ensures Label(s + MIC_SUFFIX)
  {
    AllowedFacts();
    hide Allowed;
    var t := s + MIC_SUFFIX;
    forall k | 0 <= k < |t| - 1 ensures t[k] != ' ' || t[k + 1] != ' ' {
      if k < |s| { assert t[k] == s[k]; }
    }
  }

  lemma MicrophoneBaseIsLabel(name: string)
    ensures Label(MicrophoneBase(name)) && |MicrophoneBase(name)| <= 10
    ensures MicrophoneBase(name) == CutTo(SanitizeName(name), 10)
  {
    hide Allowed, SanitizeName;
    SanitizedIsLabel(name);
    var base := SanitizeName(name);
    StripIsCut(base, 10);
    var r := Start(base, 10);
    assert r == base[..|r|];
    CutIsTidy(base, |r|);
    hide Tidy;
    assert forall c :: c in StripRight(r) ==> c in base;
  }

  /** The capture label is the speaker name's own start, shortened to leave room, and " Mic". */
  lemma MicrophoneIsLabel(name: string)
    ensures var mic := MicrophoneName(name);
            && Label(mic) && |mic| > |MIC_SUFFIX| && mic[|mic| - |MIC_SUFFIX|..] == MIC_SUFFIX
            && mic == CutTo(SanitizeName(name), 10) + " Mic"
  {
    hide SanitizeName, MicrophoneBase, Tidy, Allowed, CutTo;
    MicrophoneBaseIsLabel(name);
    SuffixedIsLabel(MicrophoneBase(name));
  }

  // ----- the blob -------------------------------------------------------------------------

  const TARGETS: nat := 4

  // The stock strings: playback idle and streaming, capture idle and streaming.
  function Target(m: nat): string
    requires m < TARGETS
  {
    match m
    case 0 => "Playback Inactive\0"
    case 1 => "Playback Active\0"
    case 2 => "Capture Inactive\0"
    case _ => "Capture Active\0"
  }

  predicate Capture(m: nat) { m == 2 || m == 3 }

  predicate OccursAt(blob: string, token: string, i: int) {
    0 <= i <= |blob| - |token| && blob[i..i + |token|] == token
  }

  ghost predicate OnlyAt(blob: string, token: string, i: int) {
    OccursAt(blob, token, i) && forall j :: OccursAt(blob, token, j) ==> j == i
  }

  datatype Found = Missing | Once | Ambiguous

  ghost function Outcome(blob: string, token: string): Found {
    if exists i :: OnlyAt(blob, token, i) then Once
    else if exists i :: OccursAt(blob, token, i) then Ambiguous
    else Missing
  }

  // The label a stock string's slot is to carry.
  function NameFor(m: nat, name: string): string {
    if Capture(m) then MicrophoneName(name) else SanitizeName(name)
  }

  function Nuls(n: nat): string { seq(n, _ => NUL) }

  function Padded(m: nat, name: string): string
    requires m < TARGETS
  {
    var text := NameFor(m, name);
    text + Nuls(if |text| <= |Target(m)| then |Target(m)| - |text| else 0)
  }

  // Reading a C string out of a blob.
  function ReadString(blob: string, i: nat): string
    requires i <= |blob|
    decreases |blob| - i
  {
    if i == |blob| || blob[i] == NUL then "" else [blob[i]] + ReadString(blob, i + 1)
  }

  lemma NameFits(m: nat, name: string)
    requires m < TARGETS
    ensures Label(NameFor(m, name)) && NUL !in NameFor(m, name)
    ensures |NameFor(m, name)| < |Target(m)| == |Padded(m, name)|
  {
    hide Allowed, SanitizeName, MicrophoneName, Tidy;
    SanitizedIsLabel(name);
    MicrophoneIsLabel(name);
    AllowedFacts();
  }

  lemma AllowedFacts()
    ensures !Allowed(NUL) && Allowed(' ')
    ensures (forall c :: c in DEFAULT_NAME ==> Allowed(c)) && (forall c :: c in MIC_SUFFIX ==> Allowed(c))
  {
  }

  lemma EndsInItsOnlyNul(m: nat)
    requires m < TARGETS
    ensures var t := Target(m); |t| > 0 && t[|t| - 1] == NUL && forall k :: 0 <= k < |t| - 1 ==> t[k] != NUL
  {
  }

  // P and C occur in a stock string only as its first character.
  lemma CapitalsStart(m: nat)
    requires m < TARGETS
    ensures var t := Target(m); |t| > 0 && t[0] in "PC" && forall k :: 0 < k < |t| ==> t[k] !in "PC"
  {
  }

  // No stock string begins inside another occurrence, or where another does.
  lemma StartsAlone(blob: string, m: nat, n: nat, i: int, d: nat)
    requires m < TARGETS && n < TARGETS && d < |Target(m)|
    requires OccursAt(blob, Target(m), i) && OccursAt(blob, Target(n), i + d)
    ensures d == 0 && m == n
  {
    hide Target;
    var t, u := Target(m), Target(n);
    CapitalsStart(m);
    CapitalsStart(n);
    assert u[0] == blob[i + d] == t[d];
    var k := if |t| < |u| then |t| - 1 else |u| - 1;
    assert t[k] == blob[i + k] == u[k];
    EndsInItsOnlyNul(m);
    EndsInItsOnlyNul(n);
    LengthsDiffer(m, n);
  }

  lemma LengthsDiffer(m: nat, n: nat)
    requires m < TARGETS && n < TARGETS
    ensures |Target(m)| == |Target(n)| ==> m == n
  {
  }

  /** Two different stock strings never share a byte. */
  lemma SlotsAreDisjoint(blob: string, m: nat, n: nat, i: int, j: int)
    requires m < TARGETS && n < TARGETS && m != n
    requires OccursAt(blob, Target(m), i) && OccursAt(blob, Target(n), j)
    ensures i + |Target(m)| <= j || j + |Target(n)| <= i
  {
    hide Target;
    if i <= j < i + |Target(m)| {
      StartsAlone(blob, m, n, i, j - i);
    } else if j <= i < j + |Target(n)| {
      StartsAlone(blob, n, m, j, i - j);
    }
  }

  // `out` is the blob after the first n targets: their once-occurring slots rewritten, the rest kept.
  ghost predicate PatchedUpTo(blob: string, out: string, name: string, n: nat)
    requires n <= TARGETS
  {
    && |out| == |blob|
    && (forall m, i :: 0 <= m < n && OnlyAt(blob, Target(m), i) ==> OccursAt(out, Padded(m, name), i))
    && (forall k :: 0 <= k < |blob| && !InSlot(blob, n, k) ==> out[k] == blob[k])
  }

  ghost predicate InSlot(blob: string, n: nat, k: int)
    requires n <= TARGETS
  {
    exists m, i :: 0 <= m < n && OnlyAt(blob, Target(m), i) && i <= k < i + |Target(m)|
  }

  function Overwrite(s: string, at: nat, p: string): (r: string)
    requires at + |p| <= |s|
    ensures |r| == |s| && r[at..at + |p|] == p
  {
    s[..at] + p + s[at + |p|..]
  }

  lemma StepPatches(blob: string, out: string, name: string, n: nat, at: nat)
    requires n < TARGETS && PatchedUpTo(blob, out, name, n) && OnlyAt(blob, Target(n), at)
    ensures at + |Padded(n, name)| <= |out|
    ensures PatchedUpTo(blob, Overwrite(out, at, Padded(n, name)), name, n + 1)
  {
    hide Padded, Target, NameFor, Label;
    NameFits(n, name);
    var p := Padded(n, name);
    var r := Overwrite(out, at, p);
    forall m, i | 0 <= m < n + 1 && OnlyAt(blob, Target(m), i) ensures OccursAt(r, Padded(m, name), i) {
      if m < n {
        NameFits(m, name);
        SlotsAreDisjoint(blob, m, n, i, at);
        assert OccursAt(out, Padded(m, name), i);
        assert r[i..i + |Target(m)|] == out[i..i + |Target(m)|];
      }
    }
    forall k | 0 <= k < |blob| && !InSlot(blob, n + 1, k) ensures r[k] == blob[k] {
      assert !InSlot(blob, n, k);
    }
  }

  lemma StepSkips(blob: string, out: string, name: string, n: nat)
    requires n < TARGETS && PatchedUpTo(blob, out, name, n) && Outcome(blob, Target(n)) != Once
    ensures PatchedUpTo(blob, out, name, n + 1)
  {
    forall k | 0 <= k < |blob| && !InSlot(blob, n + 1, k) ensures out[k] == blob[k] {
      assert !InSlot(blob, n, k);
    }
  }

  // The text, and at least one NUL up to the slot's length.
  predicate Terminated(p: string, text: string) {
    |p| > |text| && p == text + Nuls(|p| - |text|) && NUL !in text
  }

  lemma ReadsBack(out: string, p: string, text: string, i: int)
    requires OccursAt(out, p, i) && Terminated(p, text)
    ensures 0 <= i <= |out| && ReadString(out, i) == text
    decreases |text|
  {
    assert out[i] == p[0];
    if text == "" {
      assert p[0] == NUL;
    } else {
      assert p[1..] == text[1..] + Nuls(|p| - |text|) && text[0] in text;
      assert out[i + 1..i + 1 + |p| - 1] == out[i..i + |p|][1..];
      ReadsBack(out, p[1..], text[1..], i + 1);
    }
  }

  // bytes.find
  method Find(blob: string, token: string, from: nat) returns (at: int)
    requires token != ""
    ensures at == -1 ==> forall j :: j >= from ==> !OccursAt(blob, token, j)
    ensures at != -1 ==> at >= from && OccursAt(blob, token, at) && forall j :: from <= j < at ==> !OccursAt(blob, token, j)
  {
    at := from;
    while at + |token| <= |blob|
      invariant at >= from && forall j :: from <= j < at ==> !OccursAt(blob, token, j)
    {
      if blob[at..at + |token|] == token { return; }
      at := at + 1;
    }
    at := -1;
  }

  method Splice(out: array<char>, at: nat, p: string)
    requires at + |p| <= out.Length
    modifies out
    ensures out[..] == Overwrite(old(out[..]), at, p)
  {
    for k := 0 to |p|
      invariant out[..at] == old(out[..at]) && out[at..at + k] == p[..k]
      invariant out[at + k..] == old(out[at + k..])
    {
      out[at + k] := p[k];
    }
    assert out[..] == out[..at] + out[at..at + |p|] + out[at + |p|..];
  }

  datatype PatchResult = PatchResult(blob: string, name: string, micName: string,
                                     replaced: seq<string>, missing: seq<string>, ambiguous: seq<string>) {
    predicate Ok() { |replaced| == TARGETS && missing == [] && ambiguous == [] }
  }

  // The labels of the first n targets with the given outcome, in order.
  ghost function Reported(blob: string, n: nat, found: Found): seq<string>
    requires n <= TARGETS
  {
    if n == 0 then []
    else Reported(blob, n - 1, found)
         + if Outcome(blob, Target(n - 1)) == found then [Text(n - 1)] else []
  }

  /** A result is ok exactly when each of the four strings occurs exactly once. */
  lemma OkIffEachOnce(blob: string, r: PatchResult)
    requires r.replaced == Reported(blob, TARGETS, Once) && r.missing == Reported(blob, TARGETS, Missing)
    requires r.ambiguous == Reported(blob, TARGETS, Ambiguous)
    ensures r.Ok() <==> forall m :: 0 <= m < TARGETS ==> Outcome(blob, Target(m)) == Once
  {
    hide Outcome;
    ReportedLength(blob, TARGETS);
    if r.Ok() {
      forall m | 0 <= m < TARGETS ensures Outcome(blob, Target(m)) == Once { OnceThroughout(blob, TARGETS, m); }
    } else if forall m :: 0 <= m < TARGETS ==> Outcome(blob, Target(m)) == Once {
      AllReported(blob, TARGETS);
    }
  }

  function Text(m: nat): string
    requires m < TARGETS
  {
    Target(m)[..|Target(m)| - 1]
  }

  lemma TextsDiffer(m: nat, n: nat)
    requires m < TARGETS && n < TARGETS && m != n
    ensures Text(m) != Text(n)
  {
    LengthsDiffer(m, n);
  }

  /** A stock string is in the list of its own outcome and in no other. */
  lemma {:induction false} ReportedIff(blob: string, n: nat, m: nat, found: Found)
    requires m < TARGETS && n <= TARGETS
    ensures Text(m) in Reported(blob, n, found) <==> m < n && Outcome(blob, Target(m)) == found
  {
    hide Outcome, Target, Text;
    if n > 0 {
      ReportedIff(blob, n - 1, m, found);
      if m != n - 1 { TextsDiffer(m, n - 1); }
    }
  }

  lemma ReportedLength(blob: string, n: nat)
    requires n <= TARGETS
    ensures |Reported(blob, n, Once)| + |Reported(blob, n, Missing)| + |Reported(blob, n, Ambiguous)| == n
  {
    hide Outcome;
    if n > 0 { ReportedLength(blob, n - 1); }
  }

  lemma OnceThroughout(blob: string, n: nat, m: nat)
    requires m < n <= TARGETS && Reported(blob, n, Missing) == [] && Reported(blob, n, Ambiguous) == []
    ensures Outcome(blob, Target(m)) == Once
  {
    hide Outcome;
    if m < n - 1 { OnceThroughout(blob, n - 1, m); }
  }

  lemma AllReported(blob: string, n: nat)
    requires n <= TARGETS && forall m :: 0 <= m < n ==> Outcome(blob, Target(m)) == Once
    ensures |Reported(blob, n, Once)| == n && Reported(blob, n, Missing) == [] && Reported(blob, n, Ambiguous) == []
  {
    hide Outcome;
    if n > 0 { AllReported(blob, n - 1); }
  }

  // A rewritten slot holds its label and the NULs that fill it.
  lemma SlotHolds(blob: string, out: string, name: string, m: nat, i: int)
    requires m < TARGETS && PatchedUpTo(blob, out, name, TARGETS) && OnlyAt(blob, Target(m), i)
    ensures OccursAt(out, Padded(m, name), i) && 0 <= i <= |out|
  {
    hide Target, Padded;
  }

  lemma PaddedIsTerminated(m: nat, name: string)
    requires m < TARGETS
    ensures Terminated(Padded(m, name), NameFor(m, name))
  {
    NameFits(m, name);
    hide Target, NameFor, Label, Nuls;
  }

  lemma SlotReadsBack(blob: string, out: string, name: string, m: nat, i: int)
    requires m < TARGETS && PatchedUpTo(blob, out, name, TARGETS) && OnlyAt(blob, Target(m), i)
    ensures 0 <= i <= |out| && ReadString(out, i) == NameFor(m, name)
  {
    hide Target, NameFor, Padded, PatchedUpTo, OccursAt, OnlyAt, ReadString, Terminated;
    SlotHolds(blob, out, name, m, i);
    PaddedIsTerminated(m, name);
    ReadsBack(out, Padded(m, name), NameFor(m, name), i);
  }

  lemma NothingPatched(blob: string, name: string)
    ensures PatchedUpTo(blob, blob, name, 0)
  {
  }

  // Every once-occurring stock string now reads as its label.
  ghost predicate ReadsAsNamed(blob: string, out: string, name: string) {
    forall m: nat, i :: m < TARGETS ==> SlotReads(blob, out, name, m, i)
  }

  ghost predicate SlotReads(blob: string, out: string, name: string, m: nat, i: int)
    requires m < TARGETS
  {
    OnlyAt(blob, Target(m), i) ==> 0 <= i <= |out| && ReadString(out, i) == NameFor(m, name)
  }

  lemma SlotsReadBack(blob: string, out: string, name: string)
    requires PatchedUpTo(blob, out, name, TARGETS)
    ensures ReadsAsNamed(blob, out, name)
  {
    forall m: nat, i | m < TARGETS ensures SlotReads(blob, out, name, m, i) {
      hide PatchedUpTo, Target, OnlyAt, ReadString, NameFor;
      if OnlyAt(blob, Target(m), i) { SlotReadsBack(blob, out, name, m, i); }
    }
  }

  // One stock string. It is looked up in the stock blob, not in what has been written so far: a label
  // may itself spell a stock string.
  method PatchOne(blob: string, name: string, n: nat, out: array<char>) returns (found: Found)
    requires n < TARGETS && PatchedUpTo(blob, out[..], name, n)
    modifies out
    ensures found == Outcome(blob, Target(n)) && PatchedUpTo(blob, out[..], name, n + 1)
  {
    EndsInItsOnlyNul(n);
    hide Target, Padded, PatchedUpTo;
    var token := Target(n);
    var first := Find(blob, token, 0);
    if first == -1 {
      StepSkips(blob, out[..], name, n);
      return Missing;
    }
    var second := Find(blob, token, first + 1);
    if second != -1 {
      assert !exists i :: OnlyAt(blob, token, i);
      StepSkips(blob, out[..], name, n);
      return Ambiguous;
    }
    assert OnlyAt(blob, token, first);
    StepPatches(blob, out[..], name, n, first);
    Splice(out, first, Padded(n, name));
    return Once;
  }

  // bytearray(blob)
  method Copy(blob: string) returns (out: array<char>)
    ensures fresh(out) && out[..] == blob
  {
    out := new char[|blob|](i requires 0 <= i < |blob| => blob[i]);
  }

  method PatchAll(blob: string, name: string, out: array<char>)
    returns (replaced: seq<string>, missing: seq<string>, ambiguous: seq<string>)
    requires out[..] == blob
    modifies out
    ensures PatchedUpTo(blob, out[..], name, TARGETS)
    ensures replaced == Reported(blob, TARGETS, Once) && missing == Reported(blob, TARGETS, Missing)
    ensures ambiguous == Reported(blob, TARGETS, Ambiguous)
  {
    replaced, missing, ambiguous := [], [], [];
    NothingPatched(blob, name);
    hide PatchedUpTo, Outcome, Target;
    for n := 0 to TARGETS
      invariant PatchedUpTo(blob, out[..], name, n)
      invariant replaced == Reported(blob, n, Once) && missing == Reported(blob, n, Missing)
      invariant ambiguous == Reported(blob, n, Ambiguous)
    {
      EndsInItsOnlyNul(n);
      var text := Text(n);
      var found := PatchOne(blob, name, n, out);
      match found {
        case Missing => missing := missing + [text];
        case Ambiguous => ambiguous := ambiguous + [text];
        case Once => replaced := replaced + [text];
      }
    }
  }

  predicate ReadsAt(out: string, i: int, text: string) { 0 <= i <= |out| && ReadString(out, i) == text }

  // What stands where each stock string stood once.
  ghost predicate Renamed(blob: string, out: string, playback: string, capture: string) {
    && (forall i :: OnlyAt(blob, "Playback Inactive\0", i) ==> ReadsAt(out, i, playback))
    && (forall i :: OnlyAt(blob, "Playback Active\0", i) ==> ReadsAt(out, i, playback))
    && (forall i :: OnlyAt(blob, "Capture Inactive\0", i) ==> ReadsAt(out, i, capture))
    && (forall i :: OnlyAt(blob, "Capture Active\0", i) ==> ReadsAt(out, i, capture))
  }

  lemma NamedIsRenamed(blob: string, out: string, name: string)
    requires ReadsAsNamed(blob, out, name)
    ensures Renamed(blob, out, SanitizeName(name), MicrophoneName(name))
  {
    hide SanitizeName, MicrophoneName, OnlyAt, ReadString;
    forall m: nat, i | m < TARGETS && OnlyAt(blob, Target(m), i) ensures ReadsAt(out, i, NameFor(m, name)) {
      assert SlotReads(blob, out, name, m, i);
    }
    assert Target(0) == "Playback Inactive\0" && Target(1) == "Playback Active\0";
    assert Target(2) == "Capture Inactive\0" && Target(3) == "Capture Active\0";
  }

  /** Patching keeps the length and every byte outside the once-occurring strings, reports each string
      by how often it occurs, and leaves each once-occurring playback string reading as the label and
      each capture string as the label's start and " Mic". */
  method PatchModuleBytes(blob: string, name: string) returns (r: PatchResult)
    ensures r.name == SanitizeName(name) && Label(r.name)
    ensures r.micName == CutTo(r.name, 10) + " Mic" && Label(r.micName)
    ensures PatchedUpTo(blob, r.blob, name, TARGETS)
    ensures r.replaced == Reported(blob, TARGETS, Once)
    ensures r.missing == Reported(blob, TARGETS, Missing)
    ensures r.ambiguous == Reported(blob, TARGETS, Ambiguous)
    ensures r.Ok() <==> forall m :: 0 <= m < TARGETS ==> Outcome(blob, Target(m)) == Once
    ensures Renamed(blob, r.blob, r.name, r.micName)
  {
    MicrophoneIsLabel(name);
    SanitizedIsLabel(name);
    hide PatchedUpTo, Outcome, Reported, Target, SanitizeName, MicrophoneName, ReadsAsNamed, Renamed, CutTo, Label;
    var out := Copy(blob);
    var replaced, missing, ambiguous := PatchAll(blob, name, out);
    r := PatchResult(out[..], SanitizeName(name), MicrophoneName(name), replaced, missing, ambiguous);
    OkIffEachOnce(blob, r);
    SlotsReadBack(blob, r.blob, name);
    NamedIsRenamed(blob, r.blob, name);
  }
}
