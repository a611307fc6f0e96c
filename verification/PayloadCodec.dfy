/** How a retry payload travels: printed into a Redis key as `value||count`, and parsed back out of
    the channel name on which the key's expiry is announced. */
module PayloadCodec {
  import opened Common
  import opened Decimal

  datatype Payload = Payload(value: string, count: int)

  const COLON := ":"
  const BARS := "||"

  function Encode(p: Payload): string {
    p.value + BARS + Printed(p.count)
  }

  /** `sep` occurs in `s` at position `j`. */
  predicate At(s: string, sep: string, j: int) {
    0 <= j <= |s| - |sep| && s[j..j + |sep|] == sep
  }

  /** Position of the first occurrence of `sep`, or -1. */
  function Index(s: string, sep: string): (i: int)
    requires sep != ""
    ensures i == -1 || At(s, sep, i)
    ensures forall j | At(s, sep, j) :: 0 <= i <= j
  {
    if |s| < |sep| then -1
    else if s[..|sep|] == sep then 0
    else
      var i := Index(s[1..], sep);
      OccurrencesShift(s, sep, i);
      if i == -1 then -1 else i + 1
  }

  lemma OccurrencesShift(s: string, sep: string, i: int)
    requires 0 < |sep| <= |s| && s[..|sep|] != sep
    ensures At(s[1..], sep, i) ==> At(s, sep, i + 1)
    ensures forall j | At(s, sep, j) :: At(s[1..], sep, j - 1)
  {
    if At(s[1..], sep, i) {
      assert s[i + 1..i + 1 + |sep|] == s[1..][i..i + |sep|];
    }
    forall j | At(s, sep, j) ensures At(s[1..], sep, j - 1) {
      assert s[..|sep|] == s[0..0 + |sep|];
      assert s[1..][j - 1..j - 1 + |sep|] == s[j..j + |sep|];
    }
  }

  /** strings.Split: the pieces between the occurrences of `sep`, from the left. */
  function Split(s: string, sep: string): (pieces: seq<string>)
    requires sep != ""
    ensures pieces != []
    decreases |s|
  {
    var i := Index(s, sep);
    if i == -1 then [s] else [s[..i]] + Split(s[i + |sep|..], sep)
  }

  function Last(pieces: seq<string>): string
    requires pieces != []
  {
    pieces[|pieces| - 1]
  }

  function Decode(channel: string): Result<Payload> {
    var parts := Split(channel, COLON);
    if |parts| < 2 then Err("illegal payload")
    else
      var fields := Split(Last(parts[1..]), BARS);
      if |fields| < 2 then Err("illegal payload")
      else Ok(Payload(fields[0], ParsedInt32(fields[1])))
  }

  /** Values that survive the trip: no colon, and no two bars in a row even after one more is added. */
  predicate Clean(value: string) {
    ':' !in value && Index(value + "|", BARS) == -1
  }

  // ---- Splitting -----------------------------------------------------------------------------

  lemma AtColon(s: string, j: int)
    ensures At(s, COLON, j) <==> 0 <= j < |s| && s[j] == ':'
  {
    if 0 <= j < |s| {
      assert s[j..j + 1] == [s[j]];
    }
  }

  lemma AtBars(s: string, j: int)
    ensures At(s, BARS, j) <==> 0 <= j < |s| - 1 && s[j] == s[j + 1] == '|'
  {
    if 0 <= j < |s| - 1 {
      assert s[j..j + 2] == [s[j], s[j + 1]];
    }
  }

  lemma IndexOfColon(s: string)
    ensures Index(s, COLON) == -1 <==> ':' !in s
    ensures Index(s, COLON) >= 0 ==> s[Index(s, COLON)] == ':'
  {
    AtColon(s, Index(s, COLON));
    if ':' in s {
      var j :| 0 <= j < |s| && s[j] == ':';
      AtColon(s, j);
    }
  }

  lemma {:induction false} LastPieceHasNoColon(s: string)
    ensures ':' !in Last(Split(s, COLON))
    decreases |s|
  {
    IndexOfColon(s);
    var i := Index(s, COLON);
    if i >= 0 {
      LastPieceHasNoColon(s[i + 1..]);
    }
  }

  lemma SplitWithoutColon(s: string)
    requires ':' !in s
    ensures Split(s, COLON) == [s]
  {
    IndexOfColon(s);
  }

  lemma {:induction false} LastPieceAfterColon(s: string, k: nat)
    requires k < |s| && s[k] == ':'
    ensures |Split(s, COLON)| >= 2
    ensures ':' !in s[k + 1..] ==> Last(Split(s, COLON)) == s[k + 1..]
    decreases |s|
  {
    AtColon(s, k);
    SplitAtFirst(s, COLON);
    var i := Index(s, COLON);
    var rest := s[i + 1..];
    assert Last(Split(s, COLON)) == Last(Split(rest, COLON));
    if i < k {
      assert rest[k - i..] == s[k + 1..];
      LastPieceAfterColon(rest, k - i - 1);
    } else if ':' !in rest {
      SplitWithoutColon(rest);
    }
  }

  /** Behind any prefix ending in a colon, the last piece is the tail if the tail has no colon. */
  lemma LastPieceAfterPrefix(prefix: string, tail: string)
    ensures |Split(prefix + COLON + tail, COLON)| >= 2
    ensures ':' !in tail ==> Last(Split(prefix + COLON + tail, COLON)) == tail
  {
    var s := prefix + COLON + tail;
    assert s[|prefix|] == ':' && s[|prefix| + 1..] == tail;
    LastPieceAfterColon(s, |prefix|);
  }

  lemma FirstBars(value: string, rest: string)
    ensures 0 <= Index(value + BARS + rest, BARS) <= |value|
    ensures Index(value + BARS + rest, BARS) == |value| <==> Index(value + "|", BARS) == -1
  {
    var s, barred := value + BARS + rest, value + "|";
    var i, k := Index(s, BARS), Index(barred, BARS);
    AtBars(s, |value|);
    AtBars(s, i);
    AtBars(barred, i);
    AtBars(barred, k);
    AtBars(s, k);
  }

  lemma SplitAtFirst(s: string, sep: string)
    requires sep != "" && Index(s, sep) >= 0
    ensures Split(s, sep) == [s[..Index(s, sep)]] + Split(s[Index(s, sep) + |sep|..], sep)
  {
  }

  /** The first piece of `value||rest` is `value` exactly when no earlier pair of bars exists. */
  lemma FirstField(value: string, rest: string)
    ensures var pieces := Split(value + BARS + rest, BARS);
      && |pieces| >= 2
      && (pieces[0] == value <==> Index(value + "|", BARS) == -1)
      && (Index(value + "|", BARS) == -1 ==> pieces[1] == Split(rest, BARS)[0])
  {
    var s := value + BARS + rest;
    FirstBars(value, rest);
    SplitAtFirst(s, BARS);
    var i := Index(s, BARS);
    if i == |value| {
      assert s[..i] == value && s[i + 2..] == rest;
    } else {
      assert |s[..i]| == i;
    }
  }

  lemma NoBarsInNumeral(c: int)
    ensures Split(Printed(c), BARS) == [Printed(c)]
    ensures ':' !in Printed(c)
  {
    var s := Printed(c);
    forall j | 0 <= j < |s| ensures s[j] != '|' && s[j] != ':' {
      if c < 0 && j > 0 {
        assert s[j] == Digits(-c)[j - 1];
      }
    }
    AtBars(s, Index(s, BARS));
  }

  // ---- The round trip ----------------------------------------------------------------------------

  lemma {:induction false} DecodeOfEncode(prefix: string, p: Payload)
    requires Clean(p.value)
    ensures Decode(prefix + COLON + Encode(p)) == Ok(Payload(p.value, Clamped(p.count)))
  {
    var tail := Encode(p);
    NoBarsInNumeral(p.count);
    assert ':' !in tail;
    LastPieceAfterPrefix(prefix, tail);
    FirstField(p.value, Printed(p.count));
    ParseUndoesPrint(p.count);
  }

  /** decodePayload undoes encodePayload, behind any prefix, for exactly the clean values and the
      counts that fit 32 bits. */
  lemma RoundTripIff(prefix: string, p: Payload)
    ensures Decode(prefix + COLON + Encode(p)) == Ok(p) <==> Clean(p.value) && -LIMIT <= p.count < LIMIT
  {
    var channel := prefix + COLON + Encode(p);
    if Clean(p.value) {
      DecodeOfEncode(prefix, p);
    } else if Decode(channel).Ok? {
      var last := Last(Split(channel, COLON));
      LastPieceHasNoColon(channel);
      FirstPieceIsPrefix(last);
      if ':' !in p.value {
        NoBarsInNumeral(p.count);
        assert ':' !in Encode(p);
        LastPieceAfterPrefix(prefix, Encode(p));
        FirstField(p.value, Printed(p.count));
      }
    }
  }

  /** A channel is decoded exactly when it has a colon and a pair of bars after the last one. */
  lemma DecodesIff(prefix: string, tail: string)
    requires ':' !in tail
    ensures Decode(tail).Err?
    ensures Decode(prefix + ":" + tail).Ok? <==> Index(tail, "||") >= 0
  {
    SplitWithoutColon(tail);
    LastPieceAfterPrefix(prefix, tail);
    if Index(tail, BARS) >= 0 {
      SplitAtFirst(tail, BARS);
    }
  }

  /** The value is what is between the last colon and the next pair of bars, the count the numeral between
      those bars and the next pair, if any. */
  lemma DecodedFields(prefix: string, value: string, rest: string)
    requires Clean(value) && ':' !in rest
    ensures Decode(prefix + ":" + (value + "||" + rest)) == Ok(Payload(value, ParsedInt32(Split(rest, "||")[0])))
  {
    LastPieceAfterPrefix(prefix, value + BARS + rest);
    FirstField(value, rest);
  }

  /** Whatever is encoded, clean or not, something is decoded. */
  lemma {:induction false} EncodedDecodes(prefix: string, p: Payload)
    ensures Decode(prefix + COLON + Encode(p)).Ok?
    decreases |p.value|
  {
    if ':' in p.value {
      var k :| 0 <= k < |p.value| && p.value[k] == ':';
      var prefix', p' := prefix + COLON + p.value[..k], p.(value := p.value[k + 1..]);
      assert p.value == p.value[..k] + COLON + p'.value;
      assert prefix + COLON + Encode(p) == prefix' + COLON + Encode(p');
      EncodedDecodes(prefix', p');
    } else {
      NoBarsInNumeral(p.count);
      assert ':' !in Encode(p);
      LastPieceAfterPrefix(prefix, Encode(p));
      FirstField(p.value, Printed(p.count));
    }
  }

  /** A value of the form `clean||k` brings its own count along. */
  lemma OwnCount(prefix: string, value: string, k: int, count: int)
    requires Clean(value)
    ensures Decode(prefix + COLON + Encode(Payload(value + BARS + Printed(k), count))) == Ok(Payload(value, Clamped(k)))
  {
    var rest := Printed(k) + BARS + Printed(count);
    var tail := Encode(Payload(value + BARS + Printed(k), count));
    assert tail == value + BARS + rest;
    NoBarsInNumeral(k);
    NoBarsInNumeral(count);
    assert ':' !in tail;
    LastPieceAfterPrefix(prefix, tail);
    FirstField(value, rest);
    NoBarsAfterNumeral(k);
    FirstField(Printed(k), Printed(count));
    ParseUndoesPrint(k);
  }

  lemma NoBarsAfterNumeral(k: int)
    ensures Index(Printed(k) + "|", BARS) == -1
  {
    var s := Printed(k) + "|";
    forall j | 0 <= j < |s| - 1 ensures s[j] != '|' {
      if k < 0 && j > 0 {
        assert s[j] == Digits(-k)[j - 1];
      }
    }
    AtBars(s, Index(s, BARS));
  }

  lemma FirstPieceIsPrefix(s: string)
    ensures Split(s, BARS)[0] <= s
  {
  }

  /** Whatever the channel, a decoded payload can itself be encoded and decoded again. */
  lemma DecodedIsClean(channel: string)
    requires Decode(channel).Ok?
    ensures Clean(Decode(channel).value.value)
    ensures -LIMIT <= Decode(channel).value.count < LIMIT
  {
    var last := Last(Split(channel, COLON));
    LastPieceHasNoColon(channel);
    FirstPieceIsPrefix(last);
    var value, i := Split(last, BARS)[0], Index(last, BARS);
    SplitAtFirst(last, BARS);
    AtBars(last, i);
    NoBarsBefore(last, i);
  }

  lemma NoBarsBefore(s: string, i: nat)
    requires i < |s| && s[i] == '|' && Index(s, BARS) == i
    ensures Index(s[..i] + "|", BARS) == -1
  {
    var k := Index(s[..i] + "|", BARS);
    AtBars(s[..i] + "|", k);
    AtBars(s, k);
  }

  lemma EncodeInjective(p: Payload, q: Payload)
    requires Clean(p.value) && Clean(q.value) && Encode(p) == Encode(q)
    ensures p == q
  {
    DecodeOfEncode("", p);
    DecodeOfEncode("", q);
    var k := |p.value| + 2;
    assert Encode(p)[k..] == Printed(p.count) && Encode(q)[k..] == Printed(q.count);
    PrintedInjective(p.count, q.count);
  }
}
