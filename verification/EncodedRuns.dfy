/** The scalar scanners for runs of one alphabet, against the regular expressions they replace.

    `expired(i)` is the answer of the clock at the checkpoint before byte `i`. */
module EncodedRuns {
  import opened Basics
  import opened EncodingGate
  import opened RegexLanguage

  /* ---------------------------------------------------------------- matches */

  /** A match with none that starts before it. */
  ghost predicate Leftmost(r: Regex, src: string, s: int, e: int) {
    && 0 <= s <= e <= |src| && In(r, src[s..e])
    && forall i, j :: 0 <= i < s && i <= j <= |src| ==> !In(r, src[i..j])
  }

  /** No match from the same start is longer. */
  ghost predicate Longest(r: Regex, src: string, s: int, e: int) {
    0 <= s <= e && forall j :: e < j <= |src| ==> !In(r, src[s..j])
  }

  /** What a search may return: the leftmost longest match; or nothing, when there is none or the clock ran out. */
  ghost predicate Finds(r: Regex, src: string, s: int, e: int, expired: nat -> bool) {
    if s >= 0 then Leftmost(r, src, s, e) && Longest(r, src, s, e)
    else !Matches(r, src) || exists i: nat :: i <= |src| && Checkpoint(i) && expired(i)
  }

  /* ---------------------------------------------------------------- runs */

  /** The run from `s` to `e` is maximal, and no run of `n` starts before it. */
  ghost predicate FirstRun(src: string, ok: char -> bool, n: nat, s: nat, e: nat) {
    && s + n <= e <= |src| && (forall k :: s <= k < e ==> ok(src[k])) && (e < |src| ==> !ok(src[e]))
    && forall k :: k < s ==> !RunAt(src, ok, k, n)
  }

  /** Up to `m` padding characters from `e` on. */
  function PadEnd(src: string, e: nat, m: nat): (r: nat)
    requires e <= |src|
    ensures e <= r <= |src| && r - e <= m && (forall k :: e <= k < r ==> src[k] == '=')
    ensures r - e == m || r == |src| || src[r] != '='
    decreases m
  {
    if m > 0 && e < |src| && src[e] == '=' then PadEnd(src, e + 1, m - 1) else e
  }

  function Padded(n: nat, ok: char -> bool, m: nat): Regex {
    Then(AtLeast(n, One(ok)), UpTo(m, Only('=')))
  }

  lemma PartIs(src: string, i: nat, j: nat, k: nat)
    requires i <= k <= j <= |src|
    ensures src[i..j][..k - i] == src[i..k] && src[i..j][k - i..] == src[k..j]
  {
  }

  /** A padded match starts with a run. */
  lemma PaddedStarts(src: string, n: nat, ok: char -> bool, m: nat, i: nat, j: nat) returns (k: nat)
    requires i <= j <= |src| && In(Padded(n, ok, m), src[i..j])
    ensures RunAt(src, ok, i, n) && i + n <= k <= j && j - k <= m
    ensures (forall x :: i <= x < k ==> ok(src[x])) && (forall x :: k <= x < j ==> src[x] == '=')
  {
    hide In;
    var w := src[i..j];
    RunThenUpToWords(n, ok, m, Only('=').ok, w);
    var c :| 0 <= c <= |w| && c >= n && AllIn(w[..c], ok) && |w| - c <= m && AllIn(w[c..], Only('=').ok);
    k := i + c;
    PartIs(src, i, j, k);
    forall x | i <= x < k ensures ok(src[x]) {
      assert src[x] == w[..c][x - i];
    }
    forall x | k <= x < j ensures src[x] == '=' {
      assert src[x] == w[c..][x - k];
    }
  }

  lemma PaddedEnds(src: string, n: nat, ok: char -> bool, m: nat, s: nat, e: nat, end: nat)
    requires s + n <= e <= end <= |src| && end - e <= m
    requires (forall k :: s <= k < e ==> ok(src[k])) && (forall k :: e <= k < end ==> src[k] == '=')
    ensures In(Padded(n, ok, m), src[s..end])
  {
    hide In;
    PartIs(src, s, end, e);
    RunThenUpToWords(n, ok, m, Only('=').ok, src[s..end]);
    assert AllIn(src[s..end][..e - s], ok) && AllIn(src[s..end][e - s..], Only('=').ok);
  }

  /** The first run with its padding is the leftmost longest match. */
  lemma PaddedFound(src: string, n: nat, ok: char -> bool, m: nat, s: nat, e: nat)
    requires FirstRun(src, ok, n, s, e) && !ok('=')
    ensures var end := PadEnd(src, e, m);
            Leftmost(Padded(n, ok, m), src, s, end) && Longest(Padded(n, ok, m), src, s, end)
  {
    hide In;
    var r, end := Padded(n, ok, m), PadEnd(src, e, m);
    PaddedEnds(src, n, ok, m, s, e, end);
    forall i, j | 0 <= i < s && i <= j <= |src| ensures !In(r, src[i..j]) {
      if In(r, src[i..j]) {
        var k := PaddedStarts(src, n, ok, m, i, j);
      }
    }
    forall j | end < j <= |src| ensures !In(r, src[s..j]) {
      if In(r, src[s..j]) {
        var k := PaddedStarts(src, n, ok, m, s, j);
      }
    }
  }

  lemma NoPaddedMatch(src: string, n: nat, ok: char -> bool, m: nat)
    requires !HasRun(src, ok, n)
    ensures !Matches(Padded(n, ok, m), src)
  {
    hide In;
    if Matches(Padded(n, ok, m), src) {
      var i, j :| 0 <= i <= j <= |src| && In(Padded(n, ok, m), src[i..j]);
      var k := PaddedStarts(src, n, ok, m, i, j);
    }
  }

  /** Pairs of hex digits. */
  lemma HexWords(src: string, i: nat, j: nat)
    requires i <= j <= |src|
    ensures In(HEX_RUN, src[i..j]) <==> j - i >= 32 && (j - i) % 2 == 0 && forall k :: i <= k < j ==> IsHex(src[k])
  {
    hide In;
    var w := src[i..j];
    PairWords(16, IsHex, w);
    if AllIn(w, IsHex) {
      forall k | i <= k < j ensures IsHex(src[k]) {
        assert src[k] == w[k - i];
      }
    }
  }

  lemma HexFound(src: string, s: nat, e: nat)
    requires FirstRun(src, IsHex, 32, s, e)
    ensures var end := e - (e - s) % 2; Leftmost(HEX_RUN, src, s, end) && Longest(HEX_RUN, src, s, end)
  {
    hide In, HEX_RUN;
    var end := e - (e - s) % 2;
    HexWords(src, s, end);
    forall i, j | 0 <= i < s && i <= j <= |src| ensures !In(HEX_RUN, src[i..j]) {
      HexWords(src, i, j);
      assert !RunAt(src, IsHex, i, 32);
    }
    forall j | end < j <= |src| ensures !In(HEX_RUN, src[s..j]) {
      HexWords(src, s, j);
    }
  }

  lemma NoHexMatch(src: string)
    requires !HasRun(src, IsHex, 32)
    ensures !Matches(HEX_RUN, src)
  {
    hide In, HEX_RUN;
    forall i, j | 0 <= i <= j <= |src| ensures !In(HEX_RUN, src[i..j]) {
      HexWords(src, i, j);
      assert !RunAt(src, IsHex, i, 32);
    }
  }

  lemma NetbiosWords(src: string, i: nat, j: nat)
    requires i <= j <= |src|
    ensures In(NETBIOS, src[i..j]) <==> j - i >= 32 && forall k :: i <= k < j ==> IsNetbios(src[k])
  {
    hide In;
    var w := src[i..j];
    RunWords(32, IsNetbios, w);
    if AllIn(w, IsNetbios) {
      forall k | i <= k < j ensures IsNetbios(src[k]) {
        assert src[k] == w[k - i];
      }
    }
  }

  lemma NetbiosFound(src: string, s: nat, e: nat)
    requires FirstRun(src, IsNetbios, 32, s, e)
    ensures Leftmost(NETBIOS, src, s, e) && Longest(NETBIOS, src, s, e)
  {
    hide In, NETBIOS;
    NetbiosWords(src, s, e);
    forall i, j | 0 <= i < s && i <= j <= |src| ensures !In(NETBIOS, src[i..j]) {
      NetbiosWords(src, i, j);
      assert !RunAt(src, IsNetbios, i, 32);
    }
    forall j | e < j <= |src| ensures !In(NETBIOS, src[s..j]) {
      NetbiosWords(src, s, j);
    }
  }

  lemma NoNetbiosMatch(src: string)
    requires !HasRun(src, IsNetbios, 32)
    ensures !Matches(NETBIOS, src)
  {
    hide In, NETBIOS;
    forall i, j | 0 <= i <= j <= |src| ensures !In(NETBIOS, src[i..j]) {
      NetbiosWords(src, i, j);
      assert !RunAt(src, IsNetbios, i, 32);
    }
  }

  /* ---------------------------------------------------------------- scanning for the first run */

  /** Before `i`: the current run starts at `start`, if there is one, and no run of `n` starts before it. */
  ghost predicate Scanned(src: string, ok: char -> bool, n: nat, i: nat, start: int) {
    && (start >= 0 ==> start < i && i <= |src| && forall k :: start <= k < i ==> ok(src[k]))
    && forall k :: k < (if start >= 0 then start else i as int) ==> !RunAt(src, ok, k, n)
  }

  lemma RunGoesOn(src: string, ok: char -> bool, n: nat, i: nat, start: int)
    requires Scanned(src, ok, n, i, start) && i < |src| && ok(src[i])
    ensures Scanned(src, ok, n, i + 1, if start >= 0 then start else i)
  {
  }

  lemma RunIsFirst(src: string, ok: char -> bool, n: nat, i: nat, start: int)
    requires Scanned(src, ok, n, i, start) && i <= |src| && (i < |src| ==> !ok(src[i])) && start >= 0 && i - start >= n
    ensures FirstRun(src, ok, n, start, i)
  {
  }

  lemma RunIsShort(src: string, ok: char -> bool, n: nat, i: nat, start: int)
    requires n > 0 && Scanned(src, ok, n, i, start) && i <= |src| && (i < |src| ==> !ok(src[i])) &&
             (start >= 0 ==> i - start < n)
    ensures Scanned(src, ok, n, i + 1, -1)
  {
    forall k | k < i + 1 ensures !RunAt(src, ok, k, n) {
      if k >= 0 && (if start >= 0 then start else i as int) <= k && k + n <= |src| {
        assert k <= i < k + n;
      }
    }
  }

  lemma NoRunScanned(src: string, ok: char -> bool, n: nat)
    requires Scanned(src, ok, n, |src| + 1, -1)
    ensures !HasRun(src, ok, n)
  {
  }

  lemma ScanBegins(src: string, ok: char -> bool, n: nat)
    ensures Scanned(src, ok, n, 0, -1)
  {
  }

  predicate AllHex(src: string, s: nat, e: nat)
    requires s <= e <= |src|
  {
    forall k :: s <= k < e ==> IsHex(src[k])
  }

  lemma OneMoreHex(src: string, s: nat, i: nat)
    requires s <= i < |src|
    ensures AllHex(src, s, s) && (AllHex(src, s, i + 1) <==> AllHex(src, s, i) && IsHex(src[i]))
    ensures src[i] == '=' ==> !IsHex(src[i])
  {
  }

  lemma Base64IsPadded()
    ensures BASE64 == Padded(24, IsBase64, 2)
  {
  }

  lemma Base32IsPadded()
    ensures BASE32 == Padded(32, IsBase32, 6)
  {
  }

  /** The scanner for base64 and hex runs; `hexOnly` says whether everything found is a hex digit. */
  method NextDecodeRun(src: string, hexMode: bool, expired: nat -> bool) returns (start: int, end: int, hexOnly: bool)
    ensures Finds(if hexMode then HEX_RUN else BASE64, src, start, end, expired)
    ensures start >= 0 ==> 0 <= start <= end <= |src| && (hexOnly <==> AllHex(src, start, end))
  {
    hide FirstRun, Scanned, HasRun, Leftmost, Longest, HEX_RUN, BASE64, PadEnd, Matches, AllHex, IsHex, IsBase64;
    var ok, minimum := if hexMode then IsHex else IsBase64, if hexMode then 32 else 24;
    start, end, hexOnly := -1, 0, true;
    ScanBegins(src, ok, minimum);
    for i := 0 to |src| + 1
      invariant Scanned(src, ok, minimum, i, start) && start < i
      invariant start >= 0 ==> i <= |src| && (hexOnly <==> AllHex(src, start, i))
    {
      if i % 4096 == 0 && expired(i) {
        assert Checkpoint(i);
        return -1, 0, false;
      }
      if i < |src| && ok(src[i]) {
        RunGoesOn(src, ok, minimum, i, start);
        if start < 0 {
          start, hexOnly := i, true;
        }
        OneMoreHex(src, start, i);
        hexOnly := hexOnly && IsHex(src[i]);
      } else {
        if start >= 0 && i - start >= minimum {
          RunIsFirst(src, ok, minimum, i, start);
          end := i;
          if hexMode {
            HexRunIs(src, start, i);
            HexPrefix(src, start, i, end - (end - start) % 2);
            end := end - (end - start) % 2;
          } else {
            Base64RunIs(src, start, i);
            while end < |src| && end - i < 2 && src[end] == '='
              invariant i <= end <= |src| && end - i <= 2 && PadEnd(src, end, 2 - (end - i)) == PadEnd(src, i, 2)
              invariant hexOnly <==> AllHex(src, start, end)
            {
              PadGoesOn(src, end, 2 - (end - i));
              OneMoreHex(src, start, end);
              end := end + 1;
              hexOnly := false;
            }
            PadStops(src, end, 2 - (end - i));
          }
          return;
        }
        RunIsShort(src, ok, minimum, i, start);
        start := -1;
      }
    }
    NoRunScanned(src, ok, minimum);
    if hexMode {
      NoHexMatch(src);
    } else {
      Base64IsPadded();
      NoPaddedMatch(src, 24, IsBase64, 2);
    }
    return -1, 0, false;
  }

  lemma HexPrefix(src: string, s: nat, e: nat, end: nat)
    requires s <= end <= e <= |src| && AllHex(src, s, e)
    ensures AllHex(src, s, end)
  {
  }

  lemma HexRunIs(src: string, s: nat, e: nat)
    requires FirstRun(src, IsHex, 32, s, e)
    ensures s <= e <= |src| && AllHex(src, s, e)
    ensures var end := e - (e - s) % 2; Leftmost(HEX_RUN, src, s, end) && Longest(HEX_RUN, src, s, end)
  {
    HexFound(src, s, e);
  }

  lemma Base64RunIs(src: string, s: nat, e: nat)
    requires FirstRun(src, IsBase64, 24, s, e)
    ensures e <= |src| && Leftmost(BASE64, src, s, PadEnd(src, e, 2)) && Longest(BASE64, src, s, PadEnd(src, e, 2))
  {
    Base64IsPadded();
    PaddedFound(src, 24, IsBase64, 2, s, e);
  }

  lemma PadGoesOn(src: string, e: nat, m: nat)
    requires m > 0 && e < |src| && src[e] == '='
    ensures PadEnd(src, e, m) == PadEnd(src, e + 1, m - 1)
  {
  }

  lemma PadStops(src: string, e: nat, m: nat)
    requires e <= |src| && (m == 0 || e == |src| || src[e] != '=')
    ensures PadEnd(src, e, m) == e
  {
  }

  /* ---------------------------------------------------------------- NETBIOS and base32 */

  const MAX_BASE32_ENCODED: nat := (1048576 / 5 + 1) * 8

  predicate IsDistinctive(c: char) { '2' <= c <= '7' }

  /** Whether one of the first characters of the run can only be base32. */
  ghost predicate Distinct(src: string, s: nat, e: nat) {
    exists k :: s <= k < e && k < |src| && k - s < MAX_BASE32_ENCODED && IsDistinctive(src[k])
  }

  /** The scanner for NETBIOS and base32 runs. */
  method NextScalarRun(src: string, base32Mode: bool, expired: nat -> bool)
    returns (start: int, end: int, distinctive: bool)
    ensures Finds(if base32Mode then BASE32 else NETBIOS, src, start, end, expired)
    ensures start >= 0 ==> 0 <= start <= end <= |src| && (distinctive <==> base32Mode && Distinct(src, start, end))
  {
    hide FirstRun, Scanned, HasRun, Leftmost, Longest, NETBIOS, BASE32, PadEnd, Matches, Distinct, MAX_BASE32_ENCODED;
    var ok := if base32Mode then IsBase32 else IsNetbios;
    start, end, distinctive := -1, 0, false;
    ScanBegins(src, ok, 32);
    for i := 0 to |src| + 1
      invariant Scanned(src, ok, 32, i, start) && start < i
      invariant start >= 0 ==> i <= |src| && (distinctive <==> base32Mode && Distinct(src, start, i))
    {
      if i % 4096 == 0 && expired(i) {
        assert Checkpoint(i);
        return -1, 0, false;
      }
      if i < |src| && ok(src[i]) {
        RunGoesOn(src, ok, 32, i, start);
        if start < 0 {
          start, distinctive := i, false;
          NothingDistinct(src, i);
        }
        OneMoreDistinct(src, start, i);
        if base32Mode && i - start < MAX_BASE32_ENCODED && IsDistinctive(src[i]) {
          distinctive := true;
        }
      } else {
        if start >= 0 && i - start >= 32 {
          RunIsFirst(src, ok, 32, i, start);
          end := i;
          if base32Mode {
            Base32RunIs(src, start, i);
            while end < |src| && end - i < 6 && src[end] == '='
              invariant i <= end <= |src| && end - i <= 6 && PadEnd(src, end, 6 - (end - i)) == PadEnd(src, i, 6)
              invariant distinctive <==> Distinct(src, start, end)
            {
              if end != i && end % 4096 == 0 && expired(end) {
                assert Checkpoint(end);
                return -1, 0, false;
              }
              PadGoesOn(src, end, 6 - (end - i));
              OneMoreDistinct(src, start, end);
              end := end + 1;
            }
            PadStops(src, end, 6 - (end - i));
          } else {
            NetbiosRunIs(src, start, i);
          }
          return;
        }
        RunIsShort(src, ok, 32, i, start);
        start := -1;
      }
    }
    NoRunScanned(src, ok, 32);
    if base32Mode {
      Base32IsPadded();
      NoPaddedMatch(src, 32, IsBase32, 6);
    } else {
      NoNetbiosMatch(src);
    }
    return -1, 0, false;
  }

  lemma NothingDistinct(src: string, s: nat)
    ensures !Distinct(src, s, s)
  {
  }

  lemma OneMoreDistinct(src: string, s: nat, i: nat)
    requires s <= i < |src|
    ensures Distinct(src, s, i + 1) <==> Distinct(src, s, i) || (i - s < MAX_BASE32_ENCODED && IsDistinctive(src[i]))
  {
  }

  lemma Base32RunIs(src: string, s: nat, e: nat)
    requires FirstRun(src, IsBase32, 32, s, e)
    ensures e <= |src| && Leftmost(BASE32, src, s, PadEnd(src, e, 6)) && Longest(BASE32, src, s, PadEnd(src, e, 6))
  {
    Base32IsPadded();
    PaddedFound(src, 32, IsBase32, 6, s, e);
  }

  lemma NetbiosRunIs(src: string, s: nat, e: nat)
    requires FirstRun(src, IsNetbios, 32, s, e)
    ensures s <= e <= |src| && Leftmost(NETBIOS, src, s, e) && Longest(NETBIOS, src, s, e)
  {
    NetbiosFound(src, s, e);
  }
}
