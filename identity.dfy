/** The device-identity tokeniser of `list_driverless`: the device path is
    cut by `strtok` on backslash, '#' and '&', and every token that starts
    with "VID_", "PID_" or "MI_" is copied, bounded by the field's size, into
    the record's `vid`, `pid` or `mi` field; a later match overwrites an
    earlier one. */
module DeviceIdentity {
  import opened Common

  /** The separators handed to `strtok`. */
  predicate IsDelim(c: char) {
    c == '\\' || c == '#' || c == '&'
  }

  predicate DelimFree(t: string) {
    forall i :: 0 <= i < |t| ==> !IsDelim(t[i])
  }

  /** Length of the leading run of non-separator characters of `s`. */
  function RunLength(s: string): (n: nat)
    ensures n <= |s| && DelimFree(s[..n])
    ensures n < |s| ==> IsDelim(s[n])
    ensures s != [] && !IsDelim(s[0]) ==> n > 0
  {
    if s == [] || IsDelim(s[0]) then 0
    else
      var n := 1 + RunLength(s[1..]);
      assert s[..n] == [s[0]] + s[1..][..n - 1];
      n
  }

  /** The tokens successive `strtok` calls return: the maximal non-empty
      runs of non-separator characters, in order. Separators next to each
      other produce no empty token. */
  function Tokens(s: string): (ts: seq<string>)
    ensures forall k :: 0 <= k < |ts| ==> ts[k] != [] && DelimFree(ts[k])
    decreases |s|
  {
    if s == [] then []
    else if IsDelim(s[0]) then Tokens(s[1..])
    else
      var n := RunLength(s);
      [s[..n]] + Tokens(s[n..])
  }

  /** `s` with every separator removed. */
  function Strip(s: string): string {
    if s == [] then []
    else (if IsDelim(s[0]) then [] else [s[0]]) + Strip(s[1..])
  }

  function Concat(ts: seq<string>): string {
    if ts == [] then [] else ts[0] + Concat(ts[1..])
  }

  /** The tokens joined back together, `ds[k]` standing between token k
      and token k+1. */
  function Join(ts: seq<string>, ds: seq<char>): string
    requires |ts| <= |ds| + 1
  {
    if |ts| == 0 then []
    else if |ts| == 1 then ts[0]
    else ts[0] + [ds[0]] + Join(ts[1..], ds[1..])
  }

  lemma {:induction false} StripDelimFree(t: string, u: string)
    requires DelimFree(t)
    ensures Strip(t + u) == t + Strip(u)
  {
    if t != [] {
      assert !IsDelim(t[0]) && DelimFree(t[1..]);
      assert (t + u)[0] == t[0] && (t + u)[1..] == t[1..] + u;
      StripDelimFree(t[1..], u);
      calc {
        Strip(t + u);
        [t[0]] + Strip(t[1..] + u);
        [t[0]] + (t[1..] + Strip(u));
        { assert t == [t[0]] + t[1..]; }
        t + Strip(u);
      }
    } else {
      assert t + u == u;
    }
  }

  /** No character of the path is lost or reordered by tokenising, except
      the separators themselves. */
  lemma {:induction false} TokensCoverText(s: string)
    ensures Concat(Tokens(s)) == Strip(s)
    decreases |s|
  {
    if s != [] {
      if IsDelim(s[0]) {
        TokensCoverText(s[1..]);
      } else {
        var n := RunLength(s);
        TokensCoverText(s[n..]);
        assert s == s[..n] + s[n..];
        StripDelimFree(s[..n], s[n..]);
      }
    }
  }

  lemma {:induction false} RunLengthOf(t: string, u: string)
    requires DelimFree(t)
    requires u == [] || IsDelim(u[0])
    ensures RunLength(t + u) == |t|
  {
    if t != [] {
      assert (t + u)[1..] == t[1..] + u;
      RunLengthOf(t[1..], u);
    }
  }

  /** Tokenising a separator-joined list of well-formed tokens gives the
      list back. */
  lemma {:induction false} TokensOfJoin(ts: seq<string>, ds: seq<char>)
    requires |ts| <= |ds| + 1 && forall k :: 0 <= k < |ds| ==> IsDelim(ds[k])
    requires forall k :: 0 <= k < |ts| ==> ts[k] != [] && DelimFree(ts[k])
    ensures Tokens(Join(ts, ds)) == ts
  {
    if |ts| == 1 {
      var t := ts[0];
      RunLengthOf(t, []);
      assert t + [] == t;
      assert t[|t|..] == [];
    } else if |ts| > 1 {
      var t, d, rest := ts[0], ds[0], Join(ts[1..], ds[1..]);
      var s := t + [d] + rest;
      RunLengthOf(t, [d] + rest);
      assert s == t + ([d] + rest);
      assert s[..|t|] == t;
      assert s[|t|..] == [d] + rest;
      assert ([d] + rest)[1..] == rest;
      TokensOfJoin(ts[1..], ds[1..]);
      assert ts == [t] + ts[1..];
    }
  }

  /** `strncmp(token, prefix, strlen(prefix)) == 0`: a case-sensitive
      comparison of the first |prefix| characters. */
  predicate HasPrefix(t: string, p: string) {
    |p| <= |t| && t[..|p|] == p
  }

  const VidPrefix: string := "VID_"
  const PidPrefix: string := "PID_"
  const MiPrefix: string := "MI_"

  /** The last token that starts with `p`, if any. */
  function LastMatch(ts: seq<string>, p: string): Option<string> {
    if ts == [] then None
    else if HasPrefix(ts[|ts| - 1], p) then Some(ts[|ts| - 1])
    else LastMatch(ts[..|ts| - 1], p)
  }

  /** A `char` array field of `size` bytes, NUL included. */
  type FieldSize = n: nat | n >= 1 witness 1

  /** `safe_strcpy` into a field of `size` bytes keeps at most size-1
      characters of the token. */
  function Bounded(t: string, size: FieldSize): (r: string)
    ensures |r| <= |t| && |r| <= size - 1 && r == t[..|r|]
    ensures |t| < size ==> r == t
  {
    if |t| < size then t else t[..size - 1]
  }

  datatype FieldSizes = FieldSizes(vid: FieldSize, pid: FieldSize, mi: FieldSize)

  datatype Identity = Identity(vid: string, pid: string, mi: string)

  /** A field of the zero-filled record: empty until a token is copied in. */
  function FieldFrom(m: Option<string>, size: FieldSize): string {
    match m
    case None => ""
    case Some(t) => Bounded(t, size)
  }

  /** What the tokeniser leaves in `vid`, `pid` and `mi` for a device path. */
  function IdentityOf(path: string, sizes: FieldSizes): Identity {
    var ts := Tokens(path);
    Identity(FieldFrom(LastMatch(ts, VidPrefix), sizes.vid),
             FieldFrom(LastMatch(ts, PidPrefix), sizes.pid),
             FieldFrom(LastMatch(ts, MiPrefix), sizes.mi))
  }

  /** The `strtok` loop of `list_driverless`: for each token, each of the
      three prefixes is tried in turn and a match overwrites its field. */
  method ParseIdentity(path: string, sizes: FieldSizes) returns (vid: string, pid: string, mi: string)
    ensures Identity(vid, pid, mi) == IdentityOf(path, sizes)
  {
    var prefix := [VidPrefix, PidPrefix, MiPrefix];
    vid, pid, mi := "", "", "";
    var ts := Tokens(path);
    var k := 0;
    while k < |ts|
      invariant 0 <= k <= |ts|
      invariant vid == FieldFrom(LastMatch(ts[..k], VidPrefix), sizes.vid)
      invariant pid == FieldFrom(LastMatch(ts[..k], PidPrefix), sizes.pid)
      invariant mi == FieldFrom(LastMatch(ts[..k], MiPrefix), sizes.mi)
    {
      var token := ts[k];
      ghost var vid0, pid0, mi0 := vid, pid, mi;
      for j := 0 to 3
        invariant vid == if j > 0 && HasPrefix(token, VidPrefix) then Bounded(token, sizes.vid) else vid0
        invariant pid == if j > 1 && HasPrefix(token, PidPrefix) then Bounded(token, sizes.pid) else pid0
        invariant mi == if j > 2 && HasPrefix(token, MiPrefix) then Bounded(token, sizes.mi) else mi0
      {
        if HasPrefix(token, prefix[j]) {
          if j == 0 {
            vid := Bounded(token, sizes.vid);
          } else if j == 1 {
            pid := Bounded(token, sizes.pid);
          } else {
            mi := Bounded(token, sizes.mi);
          }
        }
      }
      assert ts[..k + 1][..k] == ts[..k];
      k := k + 1;
    }
    assert ts[..k] == ts;
  }

  /** The match is the last token carrying the prefix, and there is none
      exactly when no token carries it. */
  lemma {:induction false} LastMatchIsLast(ts: seq<string>, p: string)
    ensures LastMatch(ts, p).None? <==> forall i :: 0 <= i < |ts| ==> !HasPrefix(ts[i], p)
    ensures forall i :: (0 <= i < |ts| && HasPrefix(ts[i], p) && (forall j :: i < j < |ts| ==> !HasPrefix(ts[j], p)))
                          ==> LastMatch(ts, p) == Some(ts[i])
    ensures LastMatch(ts, p).Some? ==>
              exists i :: 0 <= i < |ts| && ts[i] == LastMatch(ts, p).value && HasPrefix(ts[i], p)
  {
    if ts != [] {
      var init := ts[..|ts| - 1];
      LastMatchIsLast(init, p);
      assert forall i :: 0 <= i < |init| ==> init[i] == ts[i];
    }
  }

  /** Tokens after the last match of the prefix decide nothing; only the
      suffix matters if it holds a match. */
  lemma {:induction false} LastMatchConcat(a: seq<string>, b: seq<string>, p: string)
    ensures LastMatch(a + b, p) == if LastMatch(b, p).Some? then LastMatch(b, p) else LastMatch(a, p)
  {
    if b == [] {
      assert a + b == a;
    } else {
      var b' := b[..|b| - 1];
      assert (a + b)[..|a + b| - 1] == a + b';
      LastMatchConcat(a, b', p);
    }
  }

  /** A token without the prefix can be dropped from anywhere in the
      sequence without changing the field. */
  lemma IgnoredToken(a: seq<string>, t: string, b: seq<string>, p: string)
    requires !HasPrefix(t, p)
    ensures LastMatch(a + [t] + b, p) == LastMatch(a + b, p)
  {
    LastMatchConcat(a + [t], b, p);
    LastMatchConcat(a, [t], p);
    LastMatchConcat(a, b, p);
    assert [t][..0] == [];
  }

  /** Every field the tokeniser fills holds a prefix of one of the path's
      tokens, so it contains no separator. */
  lemma IdentityFieldsDelimFree(path: string, sizes: FieldSizes)
    ensures DelimFree(IdentityOf(path, sizes).vid)
    ensures DelimFree(IdentityOf(path, sizes).pid)
    ensures DelimFree(IdentityOf(path, sizes).mi)
  {
    var ts := Tokens(path);
    LastMatchIsLast(ts, VidPrefix);
    LastMatchIsLast(ts, PidPrefix);
    LastMatchIsLast(ts, MiPrefix);
  }

  /** The tokens of the typical device path USB\VID_1234&PID_5678\6&abc. */
  const ExampleTokens: seq<string> := ["USB", "VID_1234", "PID_5678", "6", "abc"]
  const ExampleSeparators: seq<char> := ['\\', '&', '\\', '&']

  lemma ExampleMatches()
    ensures LastMatch(ExampleTokens, VidPrefix) == Some("VID_1234")
    ensures LastMatch(ExampleTokens, PidPrefix) == Some("PID_5678")
    ensures LastMatch(ExampleTokens, MiPrefix) == None
  {
    var ts := ExampleTokens;
    assert ts[..4] == ["USB", "VID_1234", "PID_5678", "6"];
    assert ts[..3] == ["USB", "VID_1234", "PID_5678"];
    assert ts[..2] == ["USB", "VID_1234"];
    assert ts[..1] == ["USB"];
    assert ts[..4][..3] == ts[..3] && ts[..3][..2] == ts[..2] && ts[..2][..1] == ts[..1] && ts[..1][..0] == [];
    assert "PID_5678"[..4][0] != VidPrefix[0] && "VID_1234"[..3][0] != MiPrefix[0];
    assert "PID_5678"[..3][0] != MiPrefix[0] && "USB"[..3][0] != MiPrefix[0];
    assert !HasPrefix("abc", VidPrefix) && !HasPrefix("6", VidPrefix) && !HasPrefix("PID_5678", VidPrefix);
    assert HasPrefix("VID_1234", VidPrefix) && HasPrefix("PID_5678", PidPrefix);
    assert !HasPrefix("abc", PidPrefix) && !HasPrefix("6", PidPrefix);
    assert !HasPrefix("abc", MiPrefix) && !HasPrefix("6", MiPrefix) && !HasPrefix("PID_5678", MiPrefix);
    assert !HasPrefix("VID_1234", MiPrefix) && !HasPrefix("USB", MiPrefix);
    assert LastMatch(ts[..2], VidPrefix) == Some("VID_1234");
    assert LastMatch(ts[..3], VidPrefix) == Some("VID_1234");
    assert LastMatch(ts[..4], VidPrefix) == Some("VID_1234");
    assert LastMatch(ts[..3], PidPrefix) == Some("PID_5678");
    assert LastMatch(ts[..4], PidPrefix) == Some("PID_5678");
    assert LastMatch(ts[..1], MiPrefix) == None;
    assert LastMatch(ts[..2], MiPrefix) == None;
    assert LastMatch(ts[..3], MiPrefix) == None;
    assert LastMatch(ts[..4], MiPrefix) == None;
  }

  /** The typical device path: vendor and product tokens are found, and the
      interface field stays empty. */
  lemma ExamplePath(sizes: FieldSizes)
    requires sizes.vid >= 9 && sizes.pid >= 9
    ensures IdentityOf(Join(ExampleTokens, ExampleSeparators), sizes) == Identity("VID_1234", "PID_5678", "")
  {
    var ts := ExampleTokens;
    assert DelimFree(ts[0]) && DelimFree(ts[1]) && DelimFree(ts[2]) && DelimFree(ts[3]) && DelimFree(ts[4]);
    TokensOfJoin(ts, ExampleSeparators);
    ExampleMatches();
  }
}
