/**
  Unpadded base64url (section 5 of RFC 4648, section 2 of RFC 7515) as the token code computes it:
  encode with padding and strip it; restore padding from the length and decode leniently.
  */
module Base64Url {
  import opened Wrappers

  type Byte = b: nat | b < 256

  function ToChar(sextet: nat): (c: char)
    requires sextet < 64
    ensures c != '=' && c != '.' && Ascii(c)
  {
    if sextet < 26 then ('A' as nat + sextet) as char
    else if sextet < 52 then ('a' as nat + (sextet - 26)) as char
    else if sextet < 62 then ('0' as nat + (sextet - 52)) as char
    else if sextet == 62 then '-'
    else '_'
  }

  /** Both alphabets are accepted, the url-safe one by translation. */
  function FromChar(c: char): (r: Option<nat>)
    ensures r.Some? ==> r.value < 64
  {
    if 'A' <= c <= 'Z' then Some(c as nat - 'A' as nat)
    else if 'a' <= c <= 'z' then Some(c as nat - 'a' as nat + 26)
    else if '0' <= c <= '9' then Some(c as nat - '0' as nat + 52)
    else if c == '+' || c == '-' then Some(62)
    else if c == '/' || c == '_' then Some(63)
    else None
  }

  predicate Ascii(c: char) {
    c as int < 128
  }

  predicate AllAscii(s: string) {
    forall i :: 0 <= i < |s| ==> Ascii(s[i])
  }

  lemma CharsAreDistinct(sextet: nat)
    requires sextet < 64
    ensures FromChar(ToChar(sextet)) == Some(sextet)
  {
  }

  const UPPER_CASE := "ABCDEFGHIJKLMNOPQRSTUVWXYZ"

  const LOWER_CASE := "abcdefghijklmnopqrstuvwxyz"

  const DIGITS := "0123456789"

  const URL_ALPHABET := UPPER_CASE + LOWER_CASE + DIGITS + "-_"

  const STANDARD_ALPHABET := UPPER_CASE + LOWER_CASE + DIGITS + "+/"

  /** Table 2 of RFC 4648, and the two letters in which Table 1 differs are read as well. */
  lemma AlphabetIsStandard(sextet: nat)
    requires sextet < 64
    ensures |URL_ALPHABET| == |STANDARD_ALPHABET| == 64
    ensures ToChar(sextet) == URL_ALPHABET[sextet]
    ensures FromChar(URL_ALPHABET[sextet]) == FromChar(STANDARD_ALPHABET[sextet]) == Some(sextet)
  {
    if sextet < 26 {
      UpperCase(sextet);
    } else if sextet < 52 {
      LowerCase(sextet - 26);
    } else if sextet < 62 {
      Digit(sextet - 52);
    }
  }

  lemma UpperCase(n: nat)
    requires n < 26
    ensures UPPER_CASE[n] == ('A' as nat + n) as char
  {
  }

  lemma LowerCase(n: nat)
    requires n < 26
    ensures LOWER_CASE[n] == ('a' as nat + n) as char
  {
  }

  lemma Digit(n: nat)
    requires n < 10
    ensures DIGITS[n] == ('0' as nat + n) as char
  {
  }

  /** Nothing outside the two alphabets and the padding counts as data. */
  lemma OnlyAlphabetIsData(c: char)
    ensures FromChar(c).Some? <==> c in STANDARD_ALPHABET || c in URL_ALPHABET
  {
    if FromChar(c).Some? {
      var n := FromChar(c).value;
      AlphabetIsStandard(n);
      assert c == URL_ALPHABET[n] || c == STANDARD_ALPHABET[n];
    }
    if c in URL_ALPHABET {
      var n :| 0 <= n < |URL_ALPHABET| && URL_ALPHABET[n] == c;
      AlphabetIsStandard(n);
    }
    if c in STANDARD_ALPHABET {
      var n :| 0 <= n < |STANDARD_ALPHABET| && STANDARD_ALPHABET[n] == c;
      AlphabetIsStandard(n);
    }
  }

  // ----- encoding ---------------------------------------------------------------------------------

  function Encode1(a: Byte): string {
    [ToChar(a / 4), ToChar(a % 4 * 16)]
  }

  function Encode2(a: Byte, b: Byte): string {
    [ToChar(a / 4), ToChar(a % 4 * 16 + b / 16), ToChar(b % 16 * 4)]
  }

  function Encode3(a: Byte, b: Byte, c: Byte): string {
    [ToChar(a / 4), ToChar(a % 4 * 16 + b / 16), ToChar(b % 16 * 4 + c / 64), ToChar(c % 64)]
  }

  /** urlsafe_b64encode: groups of three bytes, the last one padded. */
  function EncodePadded(value: seq<Byte>): string {
    if value == [] then ""
    else if |value| == 1 then Encode1(value[0]) + "=="
    else if |value| == 2 then Encode2(value[0], value[1]) + "="
    else Encode3(value[0], value[1], value[2]) + EncodePadded(value[3..])
  }

  function StripRight(s: string): string {
    if s != "" && s[|s| - 1] == '=' then StripRight(s[..|s| - 1]) else s
  }

  function Encode(value: seq<Byte>): string {
    StripRight(EncodePadded(value))
  }

  // ----- decoding ---------------------------------------------------------------------------------

  /** The padding for a length: minus the length, modulo four. */
  function Padding(length: nat): string {
    seq((4 - length % 4) % 4, _ => '=')
  }

  /**
    binascii.a2b_base64, not strict: `place` characters of the current group were read and left
    `carry` over. Characters outside the alphabet are skipped; enough padding ends the scan; a group
    left open at the end of the input is an error.
    */
  function Scan(s: string, place: nat, carry: nat, pads: nat): Option<seq<Byte>>
    requires place < 4 && carry < 64
    requires (place == 0 ==> carry == 0) && (place == 2 ==> carry < 16) && (place == 3 ==> carry < 4)
    decreases |s|
  {
    if s == "" then (if place == 0 then Some([]) else None)
    else if s[0] == '=' then
      if place >= 2 && place + pads + 1 >= 4 then Some([])
      else Scan(s[1..], place, carry, if place >= 2 then pads + 1 else pads)
    else match FromChar(s[0])
      case None => Scan(s[1..], place, carry, pads)
      case Some(n) =>
        if place == 0 then Scan(s[1..], 1, n, 0)
        else if place == 1 then Prepend(carry * 4 + n / 16, Scan(s[1..], 2, n % 16, 0))
        else if place == 2 then Prepend(carry * 16 + n / 4, Scan(s[1..], 3, n % 4, 0))
        else Prepend(carry * 64 + n, Scan(s[1..], 0, 0, 0))
  }

  function Prepend(b: Byte, rest: Option<seq<Byte>>): Option<seq<Byte>> {
    match rest
    case None => None
    case Some(bytes) => Some([b] + bytes)
  }

  /** None stands for the ValueError of a failed decode, non-ASCII text included. */
  function Decode(s: string): Option<seq<Byte>> {
    if !AllAscii(s) then None else Scan(s + Padding(|s|), 0, 0, 0)
  }

  // ----- the encoded text ---------------------------------------------------------------------------

  predicate Clean(s: string) {
    forall i :: 0 <= i < |s| ==> s[i] != '=' && s[i] != '.' && Ascii(s[i])
  }

  /** The characters an encoding keeps, group by group. */
  function Body(value: seq<Byte>): string {
    if value == [] then ""
    else if |value| == 1 then Encode1(value[0])
    else if |value| == 2 then Encode2(value[0], value[1])
    else Encode3(value[0], value[1], value[2]) + Body(value[3..])
  }

  lemma {:induction false} BodyIsClean(value: seq<Byte>)
    ensures Clean(Body(value)) && |Body(value)| == (4 * |value| + 2) / 3
  {
    if |value| > 2 {
      BodyIsClean(value[3..]);
      CleanConcat(Encode3(value[0], value[1], value[2]), Body(value[3..]));
    }
  }

  lemma CleanConcat(a: string, b: string)
    requires Clean(a) && Clean(b)
    ensures Clean(a + b)
  {
  }

  lemma PaddingRepeats(length: nat)
    ensures Padding(length + 4) == Padding(length)
  {
  }

  lemma PadAfterGroup(group: string, rest: string)
    requires |group| == 4
    ensures group + (rest + Padding(|rest|)) == (group + rest) + Padding(|group + rest|)
  {
    PaddingRepeats(|rest|);
  }

  lemma {:induction false} PaddedBody(value: seq<Byte>)
    ensures EncodePadded(value) == Body(value) + Padding(|Body(value)|)
  {
    if |value| == 1 {
      assert Padding(2) == "==";
    } else if |value| == 2 {
      assert Padding(3) == "=";
    } else if |value| > 2 {
      PaddedBody(value[3..]);
      PadAfterGroup(Encode3(value[0], value[1], value[2]), Body(value[3..]));
    }
  }

  lemma {:induction false} StripPadding(s: string, n: nat)
    requires s != "" ==> s[|s| - 1] != '='
    ensures StripRight(s + seq(n, _ => '=')) == s
  {
    var padded := s + seq(n, _ => '=');
    if n == 0 {
      assert padded == s;
    } else {
      assert padded[..|padded| - 1] == s + seq(n - 1, _ => '=');
      StripPadding(s, n - 1);
    }
  }

  /** Encoding keeps exactly the characters that carry data: no padding, no dots, length 4n/3 rounded up. */
  lemma EncodedText(value: seq<Byte>)
    ensures Encode(value) == Body(value) && Clean(Encode(value))
    ensures |Encode(value)| == (4 * |value| + 2) / 3
    ensures Encode(value) + Padding(|Encode(value)|) == EncodePadded(value)
  {
    BodyIsClean(value);
    PaddedBody(value);
    StripPadding(Body(value), |Padding(|Body(value)|)|);
  }

  /** Every character of an encoding is one of the url-safe alphabet. */
  lemma {:induction false} EncodedTextIsUrlSafe(value: seq<Byte>)
    ensures forall i :: 0 <= i < |Encode(value)| ==> Encode(value)[i] in URL_ALPHABET
  {
    EncodedText(value);
    BodyIsUrlSafe(value);
  }

  lemma {:induction false} BodyIsUrlSafe(value: seq<Byte>)
    ensures forall i :: 0 <= i < |Body(value)| ==> Body(value)[i] in URL_ALPHABET
  {
    forall n: nat | n < 64 ensures ToChar(n) in URL_ALPHABET { AlphabetIsStandard(n); }
    hide ToChar;
    if |value| > 2 { BodyIsUrlSafe(value[3..]); }
  }

  // ----- round trip -----------------------------------------------------------------------------------

  /** One data character, at each place of a group. */
  lemma ScanDataChar(c: char, n: nat, rest: string, carry: nat)
    requires FromChar(c) == Some(n) && c != '=' && n < 64 && carry < 64
    ensures Scan([c] + rest, 0, 0, 0) == Scan(rest, 1, n, 0)
    ensures Scan([c] + rest, 1, carry, 0) == Prepend(carry * 4 + n / 16, Scan(rest, 2, n % 16, 0))
    ensures carry < 16 ==> Scan([c] + rest, 2, carry, 0) == Prepend(carry * 16 + n / 4, Scan(rest, 3, n % 4, 0))
    ensures carry < 4 ==> Scan([c] + rest, 3, carry, 0) == Prepend(carry * 64 + n, Scan(rest, 0, 0, 0))
  {
    assert ([c] + rest)[1..] == rest;
  }

  lemma ScanChar(n: nat, rest: string, carry: nat)
    requires n < 64 && carry < 64
    ensures Scan([ToChar(n)] + rest, 0, 0, 0) == Scan(rest, 1, n, 0)
    ensures Scan([ToChar(n)] + rest, 1, carry, 0) == Prepend(carry * 4 + n / 16, Scan(rest, 2, n % 16, 0))
    ensures carry < 16 ==> Scan([ToChar(n)] + rest, 2, carry, 0) == Prepend(carry * 16 + n / 4, Scan(rest, 3, n % 4, 0))
    ensures carry < 4 ==> Scan([ToChar(n)] + rest, 3, carry, 0) == Prepend(carry * 64 + n, Scan(rest, 0, 0, 0))
  {
    CharsAreDistinct(n);
    ScanDataChar(ToChar(n), n, rest, carry);
  }

  lemma ScanFirst(a: Byte, next: nat, tail: string, rest: string)
    requires next < 16 && rest == [ToChar(a / 4), ToChar(a % 4 * 16 + next)] + tail
    ensures Scan(rest, 0, 0, 0) == Prepend(a, Scan(tail, 2, next, 0))
  {
    var n := a % 4 * 16 + next;
    ScanChar(a / 4, [ToChar(n)] + tail, 0);
    ScanChar(n, tail, a / 4);
    assert rest == [ToChar(a / 4)] + ([ToChar(n)] + tail);
    assert n / 16 == a % 4 && n % 16 == next;
  }

  lemma ScanSecond(b: Byte, next: nat, tail: string, rest: string)
    requires next < 4 && rest == [ToChar(b % 16 * 4 + next)] + tail
    ensures Scan(rest, 2, b / 16, 0) == Prepend(b, Scan(tail, 3, next, 0))
  {
    var n := b % 16 * 4 + next;
    ScanChar(n, tail, b / 16);
    assert n / 4 == b % 16 && n % 4 == next;
  }

  lemma ScanOne(a: Byte)
    ensures Scan(Encode1(a) + "==", 0, 0, 0) == Some([a])
  {
    ScanFirst(a, 0, "==", Encode1(a) + "==");
    assert "=="[1..] == "=" && Scan("=", 2, 0, 1) == Some([]);
    assert Scan("==", 2, 0, 0) == Some([]);
    assert [a] + [] == [a];
  }

  lemma ScanTwo(a: Byte, b: Byte)
    ensures Scan(Encode2(a, b) + "=", 0, 0, 0) == Some([a, b])
  {
    var last := [ToChar(b % 16 * 4)] + "=";
    ScanFirst(a, b / 16, last, Encode2(a, b) + "=");
    ScanSecond(b, 0, "=", last);
    assert Scan("=", 3, 0, 0) == Some([]);
    assert [a] + ([b] + []) == [a, b];
  }

  lemma ScanThree(a: Byte, b: Byte, c: Byte, rest: string)
    requires Scan(rest, 0, 0, 0).Some?
    ensures Scan(Encode3(a, b, c) + rest, 0, 0, 0) == Some([a, b, c] + Scan(rest, 0, 0, 0).value)
  {
    hide Scan;
    var third := [ToChar(c % 64)] + rest;
    var second := [ToChar(b % 16 * 4 + c / 64)] + third;
    assert Encode3(a, b, c) + rest == [ToChar(a / 4), ToChar(a % 4 * 16 + b / 16)] + second;
    ScanFirst(a, b / 16, second, Encode3(a, b, c) + rest);
    ScanSecond(b, c / 64, third, second);
    ScanChar(c % 64, rest, c / 64);
    assert c / 64 * 64 + c % 64 == c;
    var bytes := Scan(rest, 0, 0, 0).value;
    assert [a] + ([b] + ([c] + bytes)) == [a, b, c] + bytes;
  }

  lemma {:induction false} ScanPadded(value: seq<Byte>)
    ensures Scan(EncodePadded(value), 0, 0, 0) == Some(value)
  {
    if value == [] {
    } else if |value| == 1 {
      ScanOne(value[0]);
      assert value == [value[0]];
    } else if |value| == 2 {
      ScanTwo(value[0], value[1]);
      assert value == [value[0], value[1]];
    } else {
      ScanPadded(value[3..]);
      ScanThree(value[0], value[1], value[2], EncodePadded(value[3..]));
      assert value == [value[0], value[1], value[2]] + value[3..];
    }
  }

  /** Decoding inverts encoding, for every byte string. */
  lemma RoundTrip(value: seq<Byte>)
    ensures Decode(Encode(value)) == Some(value)
  {
    EncodedText(value);
    ScanPadded(value);
  }

  lemma EncodeIsInjective(a: seq<Byte>, b: seq<Byte>)
    requires Encode(a) == Encode(b)
    ensures a == b
  {
    RoundTrip(a);
    RoundTrip(b);
  }

  /** Characters that are neither data nor padding are passed over, wherever they stand. */
  lemma OtherCharactersAreSkipped(c: char, rest: string, place: nat, carry: nat, pads: nat)
    requires c !in URL_ALPHABET && c !in STANDARD_ALPHABET && c != '=' && place < 4 && carry < 64
    requires (place == 0 ==> carry == 0) && (place == 2 ==> carry < 16) && (place == 3 ==> carry < 4)
    ensures Scan([c] + rest, place, carry, pads) == Scan(rest, place, carry, pads)
  {
    OnlyAlphabetIsData(c);
    assert ([c] + rest)[1..] == rest;
  }

  // ----- which texts decode ---------------------------------------------------------------------------

  predicate AllData(s: string) {
    forall i :: 0 <= i < |s| ==> FromChar(s[i]).Some? && s[i] != '='
  }

  function Equals(n: nat): string {
    seq(n, _ => '=')
  }

  lemma ScanEnd(place: nat, carry: nat)
    requires place < 4 && carry < 64
    requires (place == 0 ==> carry == 0) && (place == 2 ==> carry < 16) && (place == 3 ==> carry < 4)
    ensures Scan(Equals((4 - place) % 4), place, carry, 0) == if place == 1 then None else Some([])
  {
    if place == 1 {
      assert Equals(3)[1..] == Equals(2) && Equals(2)[1..] == Equals(1) && Equals(1)[1..] == Equals(0);
      assert Scan(Equals(0), 1, carry, 0) == None;
      assert Scan(Equals(1), 1, carry, 0) == None;
      assert Scan(Equals(2), 1, carry, 0) == None;
    } else if place == 2 {
      assert Equals(2)[1..] == Equals(1);
      assert Scan(Equals(1), 2, carry, 1) == Some([]);
    }
  }

  function Turn(place: nat): nat
    requires place < 4
  {
    if place == 3 then 0 else place + 1
  }

  function NextCarry(place: nat, n: nat): nat {
    if place == 0 then n else if place == 1 then n % 16 else if place == 2 then n % 4 else 0
  }

  /** Where `n` characters lead from a place in a group, and how many bytes they complete. */
  function EndPlace(place: nat, n: nat): (r: nat)
    requires place < 4
    ensures r < 4
    decreases n
  {
    if n == 0 then place else EndPlace(Turn(place), n - 1)
  }

  function Completed(place: nat, n: nat): nat
    requires place < 4
    decreases n
  {
    if n == 0 then 0 else (if place == 0 then 0 else 1) + Completed(Turn(place), n - 1)
  }

  lemma {:induction false} PlacesCounted(n: nat)
    ensures EndPlace(0, n) == n % 4 && Completed(0, n) == n * 3 / 4
  {
    if n >= 4 {
      PlacesCounted(n - 4);
      assert EndPlace(1, n - 1) == EndPlace(2, n - 2) == EndPlace(3, n - 3) == EndPlace(0, n - 4);
      assert Completed(2, n - 2) == 1 + (1 + Completed(0, n - 4));
      assert Completed(1, n - 1) == 1 + Completed(2, n - 2);
    } else if n >= 2 {
      assert EndPlace(1, n - 1) == EndPlace(2, n - 2);
      assert Completed(1, n - 1) == 1 + Completed(2, n - 2);
    }
  }

  predicate ScansTo(s: string, place: nat, carry: nat, end: nat, count: nat)
    requires place < 4 && carry < 64 && end < 4
    requires (place == 0 ==> carry == 0) && (place == 2 ==> carry < 16) && (place == 3 ==> carry < 4)
  {
    var bytes := Scan(s + Equals((4 - end) % 4), place, carry, 0);
    (bytes.Some? <==> end != 1) && (bytes.Some? ==> |bytes.value| == count)
  }

  lemma ScansOneMore(s: string, place: nat, carry: nat, end: nat, count: nat)
    requires s != "" && AllData(s) && place < 4 && carry < 64 && end < 4
    requires (place == 0 ==> carry == 0) && (place == 2 ==> carry < 16) && (place == 3 ==> carry < 4)
    requires var n := FromChar(s[0]).value;
      ScansTo(s[1..], Turn(place), NextCarry(place, n), end, count)
    ensures ScansTo(s, place, carry, end, (if place == 0 then 0 else 1) + count)
  {
    hide Scan, FromChar, Equals;
    var rest := s[1..] + Equals((4 - end) % 4);
    assert s + Equals((4 - end) % 4) == [s[0]] + rest;
    ScanDataChar(s[0], FromChar(s[0]).value, rest, carry);
  }

  /** From any place in a group: the text decodes unless it ends one character into a group. */
  lemma {:induction false} ScanData(s: string, place: nat, carry: nat)
    requires AllData(s) && place < 4 && carry < 64
    requires (place == 0 ==> carry == 0) && (place == 2 ==> carry < 16) && (place == 3 ==> carry < 4)
    ensures ScansTo(s, place, carry, EndPlace(place, |s|), Completed(place, |s|))
    decreases |s|
  {
    if s == "" {
      assert s + Equals((4 - place) % 4) == Equals((4 - place) % 4);
      ScanEnd(place, carry);
    } else {
      hide ScansTo;
      var n := FromChar(s[0]).value;
      ScanData(s[1..], Turn(place), NextCarry(place, n));
      ScansOneMore(s, place, carry, EndPlace(place, |s|), Completed(Turn(place), |s| - 1));
    }
  }

  /** Text in the alphabet decodes exactly when its length is not one more than a multiple of four. */
  lemma DecodesExactly(s: string)
    requires AllData(s)
    ensures Decode(s).Some? <==> |s| % 4 != 1
    ensures Decode(s).Some? ==> |Decode(s).value| == |s| * 3 / 4
  {
    ScanData(s, 0, 0);
    PlacesCounted(|s|);
    assert Padding(|s|) == Equals((4 - |s| % 4) % 4);
    forall i | 0 <= i < |s| ensures Ascii(s[i]) {
      assert FromChar(s[i]).Some?;
    }
  }
}
