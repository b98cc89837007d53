/** Classification of a host toolchain (C runtime flavour) from a free-form
    identifier such as a target triple or an asset file name. */
module Toolchains {
  import opened Results

  /** Declaration order is also the derived ordering and the detection order. */
  datatype Toolchain = Msvc | Gnu | Musl

  const KeywordsMsvc: seq<string> := ["msvc"]
  const KeywordsGnu: seq<string> := ["gnu"]
  const KeywordsMusl: seq<string> := ["musl"]

  /** Position of a toolchain in the declaration order. */
  function Rank(t: Toolchain): nat {
    match t
    case Msvc => 0
    case Gnu => 1
    case Musl => 2
  }

  function Keywords(t: Toolchain): seq<string> {
    match t
    case Msvc => KeywordsMsvc
    case Gnu => KeywordsGnu
    case Musl => KeywordsMusl
  }

  // ---------------------------------------------------------------------
  // Case folding

  /** ASCII case folding of one character; every other character is kept. */
  function LowerChar(c: char): char {
    if 'A' <= c <= 'Z' then (c as int + ('a' as int - 'A' as int)) as char else c
  }

  function Lower(s: string): (r: string)
    ensures |r| == |s|
    ensures forall i :: 0 <= i < |s| ==> r[i] == LowerChar(s[i])
  {
    seq(|s|, i requires 0 <= i < |s| => LowerChar(s[i]))
  }

  /** Folding leaves no upper-case ASCII letter and keeps every other character. */
  lemma LowerFolds(s: string)
    ensures |Lower(s)| == |s|
    ensures forall i :: 0 <= i < |s| ==> !('A' <= Lower(s)[i] <= 'Z')
    ensures forall i :: 0 <= i < |s| && !('A' <= s[i] <= 'Z') ==> Lower(s)[i] == s[i]
    ensures forall i :: 0 <= i < |s| && 'A' <= s[i] <= 'Z' ==> Lower(s)[i] as int == s[i] as int + 32
  {
  }

  lemma LowerIdempotent(s: string)
    ensures Lower(Lower(s)) == Lower(s)
  {
  }

  lemma LowerConcat(a: string, b: string)
    ensures Lower(a + b) == Lower(a) + Lower(b)
  {
  }

  // ---------------------------------------------------------------------
  // Substring search

  ghost predicate OccursAt(needle: string, hay: string, k: int) {
    0 <= k && k + |needle| <= |hay| && hay[k..k + |needle|] == needle
  }

  /** `needle` is a contiguous substring of `hay`. */
  ghost predicate Occurs(needle: string, hay: string) {
    exists k :: OccursAt(needle, hay, k)
  }

  lemma OccursInTail(needle: string, hay: string)
    requires |hay| > 0
    requires !OccursAt(needle, hay, 0)
    ensures Occurs(needle, hay) <==> Occurs(needle, hay[1..])
  {
    if Occurs(needle, hay) {
      var k :| OccursAt(needle, hay, k);
      assert k >= 1;
      assert hay[1..][k - 1..k - 1 + |needle|] == hay[k..k + |needle|];
      assert OccursAt(needle, hay[1..], k - 1);
    }
    if Occurs(needle, hay[1..]) {
      var k :| OccursAt(needle, hay[1..], k);
      assert hay[k + 1..k + 1 + |needle|] == hay[1..][k..k + |needle|];
      assert OccursAt(needle, hay, k + 1);
    }
  }

  /** Substring containment, searched left to right. */
  function Contains(hay: string, needle: string): (b: bool)
    ensures b <==> Occurs(needle, hay)
    decreases |hay|
  {
    if |hay| < |needle| then
      assert forall k :: !OccursAt(needle, hay, k);
      false
    else if hay[..|needle|] == needle then
      assert OccursAt(needle, hay, 0);
      true
    else
      OccursInTail(needle, hay);
      Contains(hay[1..], needle)
  }

  /** Some keyword of `keywords` occurs in `hay` (the loop over a keyword array). */
  function ContainsAny(hay: string, keywords: seq<string>): (b: bool)
    ensures b <==> exists i :: 0 <= i < |keywords| && Occurs(keywords[i], hay)
  {
    if |keywords| == 0 then false
    else if Contains(hay, keywords[0]) then true
    else
      assert forall i :: 1 <= i < |keywords| ==> keywords[i] == keywords[1..][i - 1];
      ContainsAny(hay, keywords[1..])
  }

  // ---------------------------------------------------------------------
  // Detection

  /** The host toolchain; host detection is not implemented, so it is unknown. */
  function Current(): (r: Option<Toolchain>)
    ensures r.None?
  {
    None
  }

  /** Lower-case the identifier and report the first toolchain, in the order
      MSVC, GNU, MUSL, one of whose keywords occurs in it. */
  function Detect(search: string): (r: Option<Toolchain>)
    ensures r == Some(Msvc) <==> Occurs("msvc", Lower(search))
    ensures r == Some(Gnu) <==> Occurs("gnu", Lower(search)) && !Occurs("msvc", Lower(search))
    ensures r == Some(Musl) <==>
      Occurs("musl", Lower(search)) && !Occurs("msvc", Lower(search)) && !Occurs("gnu", Lower(search))
    ensures r == None <==>
      !Occurs("msvc", Lower(search)) && !Occurs("gnu", Lower(search)) && !Occurs("musl", Lower(search))
  {
    var lowered := Lower(search);
    if ContainsAny(lowered, KeywordsMsvc) then Some(Msvc)
    else if ContainsAny(lowered, KeywordsGnu) then Some(Gnu)
    else if ContainsAny(lowered, KeywordsMusl) then Some(Musl)
    else None
  }

  /** One of `t`'s keywords occurs in the case-folded identifier. */
  ghost predicate Matches(t: Toolchain, search: string) {
    exists i :: 0 <= i < |Keywords(t)| && Occurs(Keywords(t)[i], Lower(search))
  }

  /** Detection returns the earliest toolchain, in declaration order, that
      matches, and nothing exactly when no toolchain matches. */
  lemma DetectIsFirstMatch(search: string, t: Toolchain)
    ensures Detect(search) == Some(t) <==>
      Matches(t, search) && forall u :: Rank(u) < Rank(t) ==> !Matches(u, search)
    ensures Detect(search) == None <==> forall u :: !Matches(u, search)
  {
    MatchesSingleKeyword(Msvc, search);
    MatchesSingleKeyword(Gnu, search);
    MatchesSingleKeyword(Musl, search);
  }

  /** Every keyword array holds exactly one keyword. */
  lemma MatchesSingleKeyword(t: Toolchain, search: string)
    ensures |Keywords(t)| == 1
    ensures Matches(t, search) <==> Occurs(Keywords(t)[0], Lower(search))
  {
    if Occurs(Keywords(t)[0], Lower(search)) {
      assert 0 < |Keywords(t)| && Occurs(Keywords(t)[0], Lower(search));
    }
  }

  /** Detection ignores ASCII case. */
  lemma DetectIgnoresCase(search: string)
    ensures Detect(search) == Detect(Lower(search))
  {
    LowerIdempotent(search);
  }

  lemma {:induction false} OccursExtended(needle: string, x: string, s: string, y: string)
    requires Occurs(needle, s)
    ensures Occurs(needle, x + s + y)
  {
    var k :| OccursAt(needle, s, k);
    var big := x + s + y;
    assert big[|x| + k..|x| + k + |needle|] == s[k..k + |needle|];
    assert OccursAt(needle, big, |x| + k);
  }

  /** An MSVC classification survives any surrounding text: no keyword can
      take precedence over MSVC. */
  lemma MsvcStableUnderExtension(x: string, search: string, y: string)
    requires Detect(search) == Some(Msvc)
    ensures Detect(x + search + y) == Some(Msvc)
  {
    LowerConcat(x + search, y);
    LowerConcat(x, search);
    OccursExtended("msvc", Lower(x), Lower(search), Lower(y));
  }

  /** GNU does not enjoy the same stability: a surrounding MSVC keyword wins. */
  lemma GnuNotStableUnderExtension()
    ensures Detect("gnu") == Some(Gnu)
    ensures Detect("msvc-" + "gnu") == Some(Msvc)
  {
    assert OccursAt("gnu", Lower("gnu"), 0);
    assert !OccursAt("msvc", Lower("gnu"), 0);
    assert OccursAt("msvc", Lower("msvc-" + "gnu"), 0);
  }

  /** A needle cannot occur in a text lacking one of its characters. */
  lemma MissingCharBlocks(needle: string, hay: string, j: nat)
    requires j < |needle| && needle[j] !in hay
    ensures !Occurs(needle, hay)
  {
  }

  /** Classification of typical target triples, and precedence on a mixed one. */
  lemma DetectWindowsTriple()
    ensures Detect("x86_64-pc-windows-msvc") == Some(Msvc)
  {
    var windows := "x86_64-pc-windows-msvc";
    assert Lower(windows) == windows;
    assert OccursAt("msvc", windows, 18);
  }

  lemma DetectLinuxTriple()
    ensures Detect("x86_64-unknown-linux-gnu") == Some(Gnu)
  {
    var linux := "x86_64-unknown-linux-gnu";
    assert Lower(linux) == linux;
    MissingCharBlocks("msvc", linux, 2);
    assert OccursAt("gnu", linux, 21);
  }

  lemma DetectMuslTriple()
    ensures Detect("aarch64-unknown-linux-musl") == Some(Musl)
  {
    var alpine := "aarch64-unknown-linux-musl";
    assert Lower(alpine) == alpine;
    MissingCharBlocks("msvc", alpine, 2);
    MissingCharBlocks("gnu", alpine, 0);
    assert OccursAt("musl", alpine, 22);
  }

  lemma DetectWasmTriple()
    ensures Detect("wasm32-unknown-unknown") == None
  {
    var wasm := "wasm32-unknown-unknown";
    assert Lower(wasm) == wasm;
    MissingCharBlocks("msvc", wasm, 2);
    MissingCharBlocks("gnu", wasm, 0);
    MissingCharBlocks("musl", wasm, 3);
  }

  lemma DetectMixedCase()
    ensures Detect("GNU-MSVC-hybrid") == Some(Msvc)
  {
    var hybrid := "GNU-MSVC-hybrid";
    assert Lower(hybrid) == "gnu-msvc-hybrid";
    assert OccursAt("msvc", Lower(hybrid), 4);
  }
}
