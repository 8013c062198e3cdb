/**
 * Authentication tokens: src/libtetrisauth/lib/token.c. A token is five lines, the last the hex
 * of an HMAC over the first four; the HMAC is a parameter of which only the width is known.
 */
module Token {
  import opened Decimal
  import opened CodecBody
  import opened TextLines
  import H = Htttp

  const NAME_MAX := 15
  const SEAL_LEN := 64
  const MAX_LEN := 256
  const SECRET_MIN := 32
  const INT_MAX := 0x7fff_ffff
  const LLONG_MAX := 0x7fff_ffff_ffff_ffff

  datatype Result = Valid | Malformed | BadSignature | BadClaims | Expired

  datatype Claims = Claims(sub: int, name: string, iat: int, exp: int)

  const NO_CLAIMS := Claims(0, "", 0, 0)

  type Mac = (string, string) -> seq<Byte>

  /** The code's HMAC: 32 bytes, whatever the key and the message. */
  ghost predicate IsMac(mac: Mac) { forall secret, text :: |mac(secret, text)| == 32 }

  predicate SecretOk(secret: string) { SECRET_MIN <= |secret| <= INT_MAX }

  predicate NameChar(c: char)
  {
    'A' <= c <= 'Z' || 'a' <= c <= 'z' || '0' <= c <= '9' || c == '_' || c == '-'
  }

  /** The characters a name may hold. */
  lemma NameCharMeans(c: char)
    ensures NameChar(c) <==>
            || c in "ABCDEFGHI" || c in "JKLMNOPQR" || c in "STUVWXYZ"
            || c in "abcdefghi" || c in "jklmnopqr" || c in "stuvwxyz"
            || c in "0123456789" || c in "_-"
  {
    IsUpper(c);
    IsLower(c);
    IsTenth(c);
  }

  lemma IsUpper(c: char)
    ensures 'A' <= c <= 'Z' <==> c in "ABCDEFGHI" || c in "JKLMNOPQR" || c in "STUVWXYZ"
  {
    if 'A' <= c <= 'I' {
      assert "ABCDEFGHI"[c as int - 'A' as int] == c;
    } else if 'J' <= c <= 'R' {
      assert "JKLMNOPQR"[c as int - 'J' as int] == c;
    } else if 'S' <= c <= 'Z' {
      assert "STUVWXYZ"[c as int - 'S' as int] == c;
    }
  }

  lemma IsLower(c: char)
    ensures 'a' <= c <= 'z' <==> c in "abcdefghi" || c in "jklmnopqr" || c in "stuvwxyz"
  {
    if 'a' <= c <= 'i' {
      assert "abcdefghi"[c as int - 'a' as int] == c;
    } else if 'j' <= c <= 'r' {
      assert "jklmnopqr"[c as int - 'j' as int] == c;
    } else if 's' <= c <= 'z' {
      assert "stuvwxyz"[c as int - 's' as int] == c;
    }
  }

  lemma IsTenth(c: char)
    ensures '0' <= c <= '9' <==> c in "0123456789"
  {
    if '0' <= c <= '9' {
      assert "0123456789"[c as int - '0' as int] == c;
    }
  }

  predicate NameOk(name: string)
  {
    0 < |name| <= NAME_MAX && forall i :: 0 <= i < |name| ==> NameChar(name[i])
  }

  predicate IsLongLong(n: int) { -LLONG_MAX - 1 <= n <= LLONG_MAX }

  // ---- minting -------------------------------------------------------------------

  function ClaimLines(c: Claims): seq<string> { [IntText(c.sub), c.name, IntText(c.iat), IntText(c.exp)] }

  /** What the MAC covers: the four claim lines with their separators. */
  function Signed(lines: seq<string>): string
    requires |lines| == 4
  {
    Join(lines, '\n') + ['\n']
  }

  function Seal(mac: Mac, secret: string, signed: string): string { HexText(mac(secret, signed)) }

  function Minted(mac: Mac, secret: string, c: Claims): string
  {
    Signed(ClaimLines(c)) + Seal(mac, secret, Signed(ClaimLines(c)))
  }

  lemma IntTextLines(n: int)
    ensures '\n' !in IntText(n)
    ensures IsLongLong(n) ==> |IntText(n)| <= 20
  {
    var m := if n < 0 then -n else n;
    ReadPrinted(m);
    if IsLongLong(n) {
      assert Power10(10) == 10_000_000_000;
      assert Power10(15) == 100_000 * Power10(10);
      assert Power10(19) == 10_000 * Power10(15);
      PrintedLength(m, Power10(19), 19);
    }
  }

  lemma MintedLength(mac: Mac, secret: string, c: Claims)
    requires IsMac(mac) && |c.name| <= NAME_MAX && IsLongLong(c.sub) && IsLongLong(c.iat) && IsLongLong(c.exp)
    ensures |Signed(ClaimLines(c))| <= 79 && |Minted(mac, secret, c)| == |Signed(ClaimLines(c))| + SEAL_LEN
  {
    IntTextLines(c.sub);
    IntTextLines(c.iat);
    IntTextLines(c.exp);
    var lines := ClaimLines(c);
    assert lines[1..][1..][1..] == [IntText(c.exp)];
    assert |Join(lines[1..][1..], '\n')| == |IntText(c.iat)| + 1 + |IntText(c.exp)|;
    assert |Join(lines[1..], '\n')| == |c.name| + 1 + |Join(lines[1..][1..], '\n')|;
  }

  /** token_mint: any claims with a legal name are minted, negative numbers included. */
  method Mint(mac: Mac, secret: string, c: Claims, outLen: nat) returns (ok: bool, token: string)
    requires IsMac(mac) && IsLongLong(c.sub) && IsLongLong(c.iat) && IsLongLong(c.exp)
    ensures ok <==> 32 <= |secret| <= INT_MAX && NameOk(c.name) && |Minted(mac, secret, c)| < outLen
    ensures ok ==> token == Minted(mac, secret, c)
    ensures |c.name| <= NAME_MAX ==> |Minted(mac, secret, c)| < MAX_LEN
  {
    token := "";
    if |c.name| <= NAME_MAX {
      MintedLength(mac, secret, c);
    }
    if outLen == 0 || !SecretOk(secret) || !NameOk(c.name) {
      return false, "";
    }
    var signed := Signed(ClaimLines(c));
    if |signed| + SEAL_LEN + 1 > MAX_LEN {
      return false, "";
    }
    token := signed + Seal(mac, secret, signed);
    ok := |token| + 1 <= outLen;
  }

  // ---- verifying -------------------------------------------------------------------

  /** split_token: exactly five lines, the last of the seal's width. */
  method SplitToken(token: string) returns (rc: Result, parts: seq<string>)
    ensures rc == if |Split(token, '\n')| == 5 && |Split(token, '\n')[4]| == SEAL_LEN then Valid else Malformed
    ensures rc == Valid ==> parts == Split(token, '\n')
  {
    var ok;
    ok, parts := SplitUpTo(token, '\n', 5);
    rc := if ok && |parts| == 5 && |parts[4]| == SEAL_LEN then Valid else Malformed;
  }

  /** The decimal texts of 0 to LLONG_MAX, one for each number. */
  predicate Canonical(s: string)
  {
    s != "" && AllDigits(s) && (|s| > 1 ==> s[0] != '0') && Value(s) <= LLONG_MAX
  }

  /** parse_pos_ll: the guard before the multiplication refuses exactly what does not fit. */
  method ParsePosLl(s: string) returns (ok: bool, value: nat)
    ensures ok <==> Canonical(s)
    ensures ok ==> value == Value(s) && IntText(value) == s
  {
    value := 0;
    if |s| == 0 || (s[0] == '0' && |s| > 1) {
      return false, 0;
    }
    var i := 0;
    while i < |s|
      invariant 0 <= i <= |s|
      invariant AllDigits(s[..i]) && value == Value(s[..i]) <= LLONG_MAX
    {
      if s[i] < '0' || s[i] > '9' {
        return false, 0;
      }
      var d := DigitValue(s[i]);
      assert s[..i + 1][..i] == s[..i];
      if value > (LLONG_MAX - d) / 10 {
        assert AllDigits(s) ==> Value(s) > LLONG_MAX by {
          if AllDigits(s) { H.PrefixSmaller(s, i + 1); }
        }
        return false, 0;
      }
      value := value * 10 + d;
      i := i + 1;
    }
    assert s[..i] == s;
    PrintRead(s);
    ok := true;
  }

  predicate GoodLines(lines: seq<string>)
  {
    |lines| == 4 && Canonical(lines[0]) && NameOk(lines[1]) && Canonical(lines[2]) && Canonical(lines[3])
  }

  /** read_claims. */
  method ReadClaims(lines: seq<string>) returns (ok: bool, c: Claims)
    requires |lines| == 4
    ensures ok <==> GoodLines(lines)
    ensures ok ==> Legal(c) && ClaimLines(c) == lines
  {
    c := NO_CLAIMS;
    var sub, iat, exp;
    ok, sub := ParsePosLl(lines[0]);
    if !ok {
      return;
    }
    ok, iat := ParsePosLl(lines[2]);
    if !ok {
      return;
    }
    ok, exp := ParsePosLl(lines[3]);
    if !ok {
      return;
    }
    if !NameOk(lines[1]) {
      return false, NO_CLAIMS;
    }
    c := Claims(sub, lines[1], iat, exp);
  }

  /** The claims a verifier can hand out. */
  predicate Legal(c: Claims)
  {
    NameOk(c.name) && 0 <= c.sub <= LLONG_MAX && 0 <= c.iat <= LLONG_MAX && 0 <= c.exp <= LLONG_MAX
  }

  lemma LegalLines(c: Claims)
    requires Legal(c)
    ensures GoodLines(ClaimLines(c))
  {
    ReadPrinted(c.sub);
    ReadPrinted(c.iat);
    ReadPrinted(c.exp);
  }

  /** Different claims print differently. */
  lemma SameLines(a: Claims, b: Claims)
    requires Legal(a) && Legal(b) && ClaimLines(a) == ClaimLines(b)
    ensures a == b
  {
    assert ClaimLines(a)[0] == ClaimLines(b)[0] && ClaimLines(a)[1] == ClaimLines(b)[1];
    assert ClaimLines(a)[2] == ClaimLines(b)[2] && ClaimLines(a)[3] == ClaimLines(b)[3];
    ReadPrinted(a.sub);
    ReadPrinted(b.sub);
    ReadPrinted(a.iat);
    ReadPrinted(b.iat);
    ReadPrinted(a.exp);
    ReadPrinted(b.exp);
  }

  lemma SealLine(mac: Mac, secret: string, signed: string)
    requires IsMac(mac)
    ensures |Seal(mac, secret, signed)| == SEAL_LEN && '\n' !in Seal(mac, secret, signed)
  {
    HexUnbroken(mac(secret, signed));
  }

  lemma MintedSplits(mac: Mac, secret: string, c: Claims)
    requires IsMac(mac) && NameOk(c.name)
    ensures var signed := Signed(ClaimLines(c));
            Split(Minted(mac, secret, c), '\n') == ClaimLines(c) + [Seal(mac, secret, signed)]
  {
    var seal := Seal(mac, secret, Signed(ClaimLines(c)));
    SealLine(mac, secret, Signed(ClaimLines(c)));
    IntTextLines(c.sub);
    IntTextLines(c.iat);
    IntTextLines(c.exp);
    JoinEnd(ClaimLines(c), seal, '\n');
    assert '\n' !in c.name;
    SplitJoin(ClaimLines(c) + [seal], '\n');
  }

  /** Whether the token is, to the byte, the one minted for these claims. */
  predicate IsMinted(mac: Mac, secret: string, token: string, c: Claims)
  {
    Legal(c) && token == Minted(mac, secret, c)
  }

  /** A token whose lines and seal are right is the minted one, and no other claims have it. */
  lemma PartsMinted(mac: Mac, secret: string, token: string, parts: seq<string>)
    requires IsMac(mac) && parts == Split(token, '\n') && |parts| == 5
    ensures Signed(parts[..4]) + parts[4] == token
    ensures forall c :: IsMinted(mac, secret, token, c) ==>
              parts[..4] == ClaimLines(c) && parts[4] == Seal(mac, secret, Signed(parts[..4])) && GoodLines(parts[..4])
  {
    JoinSplit(token, '\n');
    JoinEnd(parts[..4], parts[4], '\n');
    assert parts[..4] + [parts[4]] == parts;
    forall c | IsMinted(mac, secret, token, c)
      ensures parts[..4] == ClaimLines(c) && parts[4] == Seal(mac, secret, Signed(parts[..4])) && GoodLines(parts[..4])
    {
      MintedSplits(mac, secret, c);
      LegalLines(c);
      assert (ClaimLines(c) + [Seal(mac, secret, Signed(ClaimLines(c)))])[..4] == ClaimLines(c);
    }
  }

  lemma MintedShape(mac: Mac, secret: string, token: string)
    requires IsMac(mac)
    ensures forall c :: IsMinted(mac, secret, token, c) ==>
              |Split(token, '\n')| == 5 && |Split(token, '\n')[4]| == SEAL_LEN && |token| < MAX_LEN
  {
    forall c | IsMinted(mac, secret, token, c)
      ensures |Split(token, '\n')| == 5 && |Split(token, '\n')[4]| == SEAL_LEN && |token| < MAX_LEN
    {
      MintedSplits(mac, secret, c);
      MintedLength(mac, secret, c);
      SealLine(mac, secret, Signed(ClaimLines(c)));
    }
  }

  /** token_verify accepts a string with claims c at a time exactly when c is legal, not expired,
      and the string is byte for byte what minting c gives. */
  method Verify(mac: Mac, secret: string, token: string, now: int) returns (rc: Result, claims: Claims)
    requires IsMac(mac)
    ensures forall c :: rc == Valid && claims == c <==>
              32 <= |secret| <= INT_MAX && IsMinted(mac, secret, token, c) && now < c.exp
    ensures forall c :: SecretOk(secret) && IsMinted(mac, secret, token, c) && c.exp <= now ==> rc == Expired
    ensures rc != Valid ==> claims == NO_CLAIMS
  {
    claims := NO_CLAIMS;
    MintedShape(mac, secret, token);
    if !SecretOk(secret) || |token| >= MAX_LEN {
      return Malformed, NO_CLAIMS;
    }
    var parts;
    rc, parts := SplitToken(token);
    if rc != Valid {
      return;
    }
    PartsMinted(mac, secret, token, parts);
    if Seal(mac, secret, Signed(parts[..4])) != parts[4] {
      return BadSignature, NO_CLAIMS;
    }
    var ok, c := ReadClaims(parts[..4]);
    if !ok {
      return BadClaims, NO_CLAIMS;
    }
    OnlyTheseClaims(mac, secret, token, c);
    if now >= c.exp {
      return Expired, NO_CLAIMS;
    }
    return Valid, c;
  }

  lemma OnlyTheseClaims(mac: Mac, secret: string, token: string, c: Claims)
    requires IsMac(mac) && IsMinted(mac, secret, token, c)
    ensures forall c' :: IsMinted(mac, secret, token, c') ==> c' == c
  {
    forall c' | IsMinted(mac, secret, token, c')
      ensures c' == c
    {
      MintedSplits(mac, secret, c);
      MintedSplits(mac, secret, c');
      assert ClaimLines(c) == Split(token, '\n')[..4] == ClaimLines(c');
      SameLines(c, c');
    }
  }

  /** Claims with a negative number can be minted, but no verifier accepts the token. */
  lemma NegativeNeverVerifies(mac: Mac, secret: string, c: Claims, c': Claims)
    requires IsMac(mac) && NameOk(c.name) && (c.sub < 0 || c.iat < 0 || c.exp < 0)
    ensures !IsMinted(mac, secret, Minted(mac, secret, c), c')
  {
    if Legal(c') {
      MintedSplits(mac, secret, c);
      MintedSplits(mac, secret, c');
      LegalLines(c');
      assert (ClaimLines(c) + [Seal(mac, secret, Signed(ClaimLines(c)))])[..4] == ClaimLines(c);
      assert (ClaimLines(c') + [Seal(mac, secret, Signed(ClaimLines(c')))])[..4] == ClaimLines(c');
      assert ClaimLines(c) != ClaimLines(c') by {
        var k := if c.sub < 0 then 0 else if c.iat < 0 then 2 else 3;
        assert ClaimLines(c)[k][0] == '-' != ClaimLines(c')[k][0];
      }
    }
  }
}
