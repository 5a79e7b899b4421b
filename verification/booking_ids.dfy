/** `generateBookingId`: `BK-`, up to six upper-cased alphanumerics of the
    customer's name, `-`, and the last six digits of the clock reading. */
module BookingIds {
  import opened Wrappers
  import opened Text
  import Seqs

  /** `name.replace(/[^a-zA-Z0-9]/g, '').substring(0, 6).toUpperCase()`. */
  function NamePart(name: string): (r: string)
    ensures |r| <= 6
    ensures forall i :: 0 <= i < |r| ==> IsUpperAlnum(r[i])
  {
    var kept := KeepAlnum(name);
    KeepAlnumOnly(name);
    Upper(Substring(kept, 0, 6))
  }

  /** `t.substring(t.length - 6)` of `t = now.toString()`; a numeral shorter than
      six digits is kept whole, since `substring` clamps a negative start to 0. */
  function TimeSuffix(now: nat): string {
    var t := Decimal(now);
    Substring(t, |t| - 6, |t|)
  }

  function GenerateBookingId(name: string, now: nat): string {
    "BK-" + NamePart(name) + "-" + TimeSuffix(now)
  }

  /** The suffix is the trailing min(6, k) digits of the k-digit clock numeral,
      and as a number it is the clock reading modulo one million. */
  lemma TimeSuffixDigits(now: nat)
    ensures var t := Decimal(now); var n := if |t| < 6 then |t| else 6;
      && TimeSuffix(now) == t[|t| - n..]
      && |TimeSuffix(now)| == n
      && AllDigits(TimeSuffix(now))
      && Value(TimeSuffix(now)) == now % 1000000
  {
    var t := Decimal(now);
    var n := if |t| < 6 then |t| else 6;
    assert TimeSuffix(now) == t[|t| - n..];
    SuffixValue(now, t, n);
  }

  lemma SuffixValue(now: nat, t: string, n: nat)
    requires t == Decimal(now) && n == (if |t| < 6 then |t| else 6)
    ensures Value(t[|t| - n..]) == now % 1000000
  {
    ValueOfDecimal(now);
    ValueOfSuffix(t, n);
    if |t| < 6 {
      assert t[|t| - n..] == t;
      ValueBound(t);
      PowBelowMillion(|t|);
    } else {
      assert Pow10(6) == 1000000;
    }
  }

  lemma {:induction false} PowBelowMillion(k: nat)
    requires k < 6
    ensures Pow10(k) <= 100000
    decreases 5 - k
  {
    if k < 5 {
      PowBelowMillion(k + 1);
    } else {
      assert Pow10(5) == 100000;
    }
  }

  /** Only the letters and digits of a name matter: dropping any other character
      leaves the name part unchanged. */
  lemma NamePartIgnoresPunctuation(a: string, c: char, b: string)
    requires !IsAlnum(c)
    ensures NamePart(a + [c] + b) == NamePart(a + b)
  {
    KeepAlnumAppend(a + [c], b);
    KeepAlnumAppend(a, [c]);
    KeepAlnumAppend(a, b);
    assert KeepAlnum([c]) == [];
  }

  /** A name that is already upper-case alphanumeric contributes its first six
      characters unchanged. */
  lemma NamePartOfCode(name: string)
    requires forall i :: 0 <= i < |name| ==> IsUpperAlnum(name[i])
    ensures NamePart(name) == name[..if |name| < 6 then |name| else 6]
  {
    KeepAlnumFixed(name);
  }

  /** Splits an ID at its two separators: the name part cannot contain `-`, so the
      first `-` after the prefix ends it. */
  function ParseBookingId(id: string): (r: Option<(string, string)>)
    ensures r.Some? ==> id == "BK-" + r.value.0 + "-" + r.value.1
  {
    if |id| < 3 || id[..3] != "BK-" then None
    else
      var rest := id[3..];
      var k := Seqs.FirstIndex(rest, c => c == '-');
      if k == |rest| then None
      else
        assert id == "BK-" + rest[..k] + "-" + rest[k + 1..];
        Some((rest[..k], rest[k + 1..]))
  }

  /** A booking ID gives back the name part and time suffix it was built from. */
  lemma BookingIdRoundTrip(name: string, now: nat)
    ensures ParseBookingId(GenerateBookingId(name, now)) == Some((NamePart(name), TimeSuffix(now)))
  {
    var id := GenerateBookingId(name, now);
    var np := NamePart(name);
    var suffix := TimeSuffix(now);
    assert id[..3] == "BK-";
    var rest := id[3..];
    assert rest == np + "-" + suffix;
    var k := Seqs.FirstIndex(rest, c => c == '-');
    assert forall j :: 0 <= j < |np| ==> rest[j] == np[j] && rest[j] != '-';
    assert rest[|np|] == '-';
    assert k == |np|;
    assert rest[..k] == np && rest[k + 1..] == suffix;
  }

  /** The worked example: the name `O'Brien 3!` booked at a clock reading ending
      in ...000123, such as 1716200000123 ms. */
  lemma ObrienExample(name: string, now: nat)
    requires name == "O'Brien 3!"
    requires now >= 100000 && now % 1000000 == 123
    ensures GenerateBookingId(name, now) == "BK-OBRIEN-000123"
  {
    ObrienNamePart(name);
    SuffixOfClock123(now);
  }

  lemma ObrienNamePart(name: string)
    requires name == "O'Brien 3!"
    ensures NamePart(name) == "OBRIEN"
  {
    ObrienKept(name, "O'Br", "ien", " 3!");
    var kept := KeepAlnum(name);
    assert Substring(kept, 0, 6) == "OBrien";
    assert Upper("OBrien") == "OBRIEN" by {
      assert UpperChar('r') == 'R' && UpperChar('i') == 'I';
      assert UpperChar('e') == 'E' && UpperChar('n') == 'N';
    }
  }

  lemma ObrienKept(name: string, head: string, middle: string, tail: string)
    requires head == "O'Br" && middle == "ien" && tail == " 3!"
    requires name == head + middle + tail
    ensures KeepAlnum(name) == "OBrien3"
  {
    KeepAlnumAppend(head + middle, tail);
    KeepAlnumAppend(head, middle);
    KeptHead(head);
    KeepAlnumFixed(middle);
    KeptTail(tail);
    assert "OBr" + middle + "3" == "OBrien3";
  }

  lemma KeptHead(s: string)
    requires s == "O'Br"
    ensures KeepAlnum(s) == "OBr"
  {
    KeepAlnumDrop(s, 0);
    KeepAlnumDrop(s, 1);
    KeepAlnumDrop(s, 2);
    KeepAlnumDrop(s, 3);
    assert s[4..] == [];
  }

  lemma KeptTail(s: string)
    requires s == " 3!"
    ensures KeepAlnum(s) == "3"
  {
    KeepAlnumDrop(s, 0);
    KeepAlnumDrop(s, 1);
    KeepAlnumDrop(s, 2);
    assert s[3..] == [];
  }

  /** Any clock reading of at least six digits that ends in ...000123 yields the
      suffix `000123`. */
  lemma SuffixOfClock123(now: nat)
    requires now >= 100000 && now % 1000000 == 123
    ensures TimeSuffix(now) == "000123"
  {
    TimeSuffixDigits(now);
    var t := Decimal(now);
    ValueOfDecimal(now);
    ValueBound(t);
    assert AllDigits("000123") && Value("000123") == 123 by {
      ValueOfDecimal(123);
      assert Decimal(123) == "123";
      ValueLeadingZero("123");
      assert "0" + "123" == "0123";
      ValueLeadingZero("0123");
      assert "0" + "0123" == "00123";
      ValueLeadingZero("00123");
      assert "0" + "00123" == "000123";
    }
    ValueInjective(TimeSuffix(now), "000123");
  }
}
