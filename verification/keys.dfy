/** The string keys of the saved results (multisim.py, save_results and
    load_results): a state (p1, p2) is written as the JSON object key
    "p1,p2" and read back with k.split(",") and int() on both parts.

    int() is modelled on ASCII: an optional sign followed by one or more
    decimal digits. A malformed key, which makes the source raise, is None. */
module StateKeys {
  import opened Grid

  datatype Option<T> = None | Some(value: T)

  /** The separator between the two coordinates of a key. */
  const Comma: char := ','

  predicate IsDigit(c: char)
  {
    '0' <= c <= '9'
  }

  predicate AllDigits(s: string)
  {
    forall i :: 0 <= i < |s| ==> IsDigit(s[i])
  }

  /** The character of the decimal digit d. */
  function DigitChar(d: nat): (c: char)
    requires d < 10
    ensures IsDigit(c)
  {
    ('0' as int + d) as char
  }

  /** The value of a digit character. */
  function DigitValue(c: char): (d: nat)
    requires IsDigit(c)
    ensures d < 10 && DigitChar(d) == c
  {
    c as int - '0' as int
  }

  /** str(n) for a non-negative int: its decimal digits, most significant first. */
  function NatToString(n: nat): (s: string)
    ensures |s| > 0 && AllDigits(s)
    ensures s[0] == '0' ==> n == 0 && |s| == 1
  {
    if n < 10 then [DigitChar(n)] else NatToString(n / 10) + [DigitChar(n % 10)]
  }

  /** The number a string of decimal digits denotes. */
  function DigitsValue(s: string): nat
    requires AllDigits(s)
  {
    if |s| == 0 then 0 else DigitsValue(s[..|s| - 1]) * 10 + DigitValue(s[|s| - 1])
  }

  /** str(i): a minus sign for a negative number, then the digits of |i|. */
  function IntToString(i: int): string
  {
    if i < 0 then "-" + NatToString(-i) else NatToString(i)
  }

  /** int(s) on an ASCII string: an optional '+' or '-' and at least one digit. */
  function ParseInt(s: string): (r: Option<int>)
    ensures r.Some? <==> (|s| > 0 && AllDigits(s)) || (|s| > 1 && (s[0] == '-' || s[0] == '+') && AllDigits(s[1..]))
  {
    if |s| > 0 && (s[0] == '-' || s[0] == '+') then
      var digits := s[1..];
      if |digits| > 0 && AllDigits(digits) then
        var v: int := DigitsValue(digits);
        Some(if s[0] == '-' then -v else v)
      else None
    else if |s| > 0 && AllDigits(s) then Some(DigitsValue(s))
    else None
  }

  /** The digits str() writes: no leading zero unless the number is 0. */
  predicate CanonicalDigits(s: string)
  {
    |s| > 0 && AllDigits(s) && (s[0] == '0' ==> |s| == 1)
  }

  /** The strings str() produces for an int: no '+', no leading zero, no "-0". */
  predicate CanonicalInt(s: string)
  {
    CanonicalDigits(s) || (|s| > 1 && s[0] == '-' && CanonicalDigits(s[1..]) && s[1] != '0')
  }

  /** Reading the digits back gives the number. */
  lemma {:induction false} NatToStringRoundTrip(n: nat)
    ensures DigitsValue(NatToString(n)) == n
  {
    if n >= 10 {
      var s := NatToString(n);
      assert s[..|s| - 1] == NatToString(n / 10);
      NatToStringRoundTrip(n / 10);
    }
  }

  /** Digits without a leading zero denote a positive number unless they are "0". */
  lemma {:induction false} LeadingDigitPositive(s: string)
    requires |s| > 0 && AllDigits(s) && s[0] != '0'
    ensures DigitsValue(s) > 0
  {
    if |s| > 1 {
      LeadingDigitPositive(s[..|s| - 1]);
    }
  }

  /** Canonical digits are exactly what str() writes for their value. */
  lemma {:induction false} CanonicalDigitsRoundTrip(s: string)
    requires CanonicalDigits(s)
    ensures NatToString(DigitsValue(s)) == s
  {
    if |s| > 1 {
      var init := s[..|s| - 1];
      LeadingDigitPositive(init);
      CanonicalDigitsRoundTrip(init);
      var n := DigitsValue(s);
      assert n / 10 == DigitsValue(init) && n % 10 == DigitValue(s[|s| - 1]);
      assert s == init + [s[|s| - 1]];
    }
  }

  /** int(str(i)) == i for every int. */
  lemma ParseIntRoundTrip(i: int)
    ensures ParseInt(IntToString(i)) == Some(i)
  {
    var s := IntToString(i);
    if i < 0 {
      assert s[1..] == NatToString(-i);
      NatToStringRoundTrip(-i);
    } else {
      NatToStringRoundTrip(i);
    }
  }

  /** str() writes canonical strings, and a canonical string is str() of the
      number int() reads from it. */
  lemma IntToStringCanonical(i: int, s: string)
    ensures CanonicalInt(IntToString(i))
    ensures CanonicalInt(s) && ParseInt(s) == Some(i) ==> IntToString(i) == s
  {
    var t := IntToString(i);
    if i < 0 {
      assert t[1..] == NatToString(-i);
    }
    if CanonicalInt(s) && ParseInt(s) == Some(i) {
      if s[0] == '-' {
        CanonicalDigitsRoundTrip(s[1..]);
        LeadingDigitPositive(s[1..]);
        assert s == "-" + s[1..];
      } else {
        CanonicalDigitsRoundTrip(s);
      }
    }
  }

  /** The number of occurrences of c in s. */
  function Occurrences(s: string, c: char): nat
  {
    if |s| == 0 then 0 else (if s[0] == c then 1 else 0) + Occurrences(s[1..], c)
  }

  /** s.split(sep): the pieces between the separators, empty pieces included. */
  function Split(s: string, sep: char): (parts: seq<string>)
    ensures |parts| == Occurrences(s, sep) + 1
    ensures forall i :: 0 <= i < |parts| ==> sep !in parts[i]
  {
    if |s| == 0 then [""]
    else
      var rest := Split(s[1..], sep);
      if s[0] == sep then [""] + rest
      else [[s[0]] + rest[0]] + rest[1..]
  }

  /** sep.join(parts). */
  function Join(parts: seq<string>, sep: char): string
  {
    if |parts| == 0 then ""
    else if |parts| == 1 then parts[0]
    else parts[0] + [sep] + Join(parts[1..], sep)
  }

  /** Joining the pieces of a split gives back the string. */
  lemma {:induction false} JoinSplit(s: string, sep: char)
    ensures Join(Split(s, sep), sep) == s
  {
    if |s| > 0 {
      var rest := Split(s[1..], sep);
      JoinSplit(s[1..], sep);
      if s[0] == sep {
        assert s == [sep] + s[1..];
      } else {
        var parts := [[s[0]] + rest[0]] + rest[1..];
        if |rest| == 1 {
          assert s == [s[0]] + s[1..];
        } else {
          assert parts[1..] == rest[1..];
          assert s == [s[0]] + s[1..];
        }
      }
    }
  }

  /** Splitting pieces joined with a separator none of them contains gives
      back the pieces. */
  lemma {:induction false} SplitJoin(parts: seq<string>, sep: char)
    requires |parts| > 0
    requires forall i :: 0 <= i < |parts| ==> sep !in parts[i]
    ensures Split(Join(parts, sep), sep) == parts
    decreases |parts|, |parts[0]|
  {
    var p := parts[0];
    if |p| == 0 {
      if |parts| > 1 {
        var j := Join(parts[1..], sep);
        assert Join(parts, sep) == [sep] + j;
        assert ([sep] + j)[1..] == j;
        SplitJoin(parts[1..], sep);
        assert parts == [""] + parts[1..];
      }
    } else {
      var shorter := [p[1..]] + parts[1..];
      assert shorter[1..] == parts[1..];
      assert forall i :: 0 <= i < |shorter| ==> sep !in shorter[i] by {
        forall i | 0 <= i < |shorter|
          ensures sep !in shorter[i]
        {
          if i == 0 {
            assert forall c :: c in p[1..] ==> c in p;
          }
        }
      }
      SplitJoin(shorter, sep);
      var j := Join(parts, sep);
      assert j == [p[0]] + Join(shorter, sep) by {
        if |parts| > 1 {
          assert Join(shorter, sep) == p[1..] + [sep] + Join(parts[1..], sep);
        }
        assert p == [p[0]] + p[1..];
      }
      assert j[0] == p[0] && j[1..] == Join(shorter, sep);
      assert p[0] != sep by {
        assert p[0] in p;
      }
      assert [p[0]] + p[1..] == p;
    }
  }

  /** The key f"{p1},{p2}" of a state. */
  function EncodeKey(s: State): string
  {
    IntToString(s.0) + [Comma] + IntToString(s.1)
  }

  /** p1, p2 = map(int, k.split(",")): exactly two pieces, each an int. */
  function DecodeKey(k: string): (r: Option<State>)
    ensures r.Some? ==> Occurrences(k, Comma) == 1
  {
    var parts := Split(k, Comma);
    if |parts| != 2 then None
    else
      match (ParseInt(parts[0]), ParseInt(parts[1]))
      case (Some(p1), Some(p2)) => Some((p1, p2))
      case _ => None
  }

  /** A key as save_results writes it: two canonical ints around one comma. */
  predicate CanonicalKey(k: string)
  {
    var parts := Split(k, Comma);
    |parts| == 2 && CanonicalInt(parts[0]) && CanonicalInt(parts[1])
  }

  /** The coordinates' strings never contain the comma. */
  lemma IntToStringHasNoComma(i: int)
    ensures Comma !in IntToString(i)
  {
    if i < 0 {
      assert IntToString(i)[1..] == NatToString(-i);
    }
  }

  /** The key of a state splits into the strings of its two coordinates. */
  lemma SplitEncodedKey(s: State)
    ensures Split(EncodeKey(s), Comma) == [IntToString(s.0), IntToString(s.1)]
  {
    var parts := [IntToString(s.0), IntToString(s.1)];
    IntToStringHasNoComma(s.0);
    IntToStringHasNoComma(s.1);
    assert Join(parts, Comma) == EncodeKey(s) by {
      assert parts[1..] == [IntToString(s.1)];
    }
    SplitJoin(parts, Comma);
  }

  /** load_results reads back the state save_results wrote, for every pair of
      ints. */
  lemma DecodeEncodeKey(s: State)
    ensures DecodeKey(EncodeKey(s)) == Some(s)
  {
    SplitEncodedKey(s);
    ParseIntRoundTrip(s.0);
    ParseIntRoundTrip(s.1);
  }

  /** Different states get different keys. */
  lemma EncodeKeyInjective(a: State, b: State)
    ensures EncodeKey(a) == EncodeKey(b) <==> a == b
  {
    DecodeEncodeKey(a);
    DecodeEncodeKey(b);
  }

  /** The keys save_results writes are exactly the canonical keys that decode:
      k is the key of s if and only if k is canonical and decodes to s. */
  lemma EncodedKeysAreCanonical(s: State, k: string)
    ensures k == EncodeKey(s) <==> CanonicalKey(k) && DecodeKey(k) == Some(s)
  {
    SplitEncodedKey(s);
    IntToStringCanonical(s.0, "");
    IntToStringCanonical(s.1, "");
    if k == EncodeKey(s) {
      DecodeEncodeKey(s);
    }
    if CanonicalKey(k) && DecodeKey(k) == Some(s) {
      var parts := Split(k, Comma);
      IntToStringCanonical(s.0, parts[0]);
      IntToStringCanonical(s.1, parts[1]);
      JoinSplit(k, Comma);
      assert parts[1..] == [parts[1]];
    }
  }

  /** load_results also accepts keys save_results never writes. */
  lemma DecodeIsLenient()
    ensures DecodeKey("+7,05") == Some((7, 5))
    ensures !CanonicalKey("+7,05")
  {
    SplitLiteral("+7,05", ["+7", "05"]);
    assert ("+7")[1..] == "7";
    assert DigitsValue("05") == 5 by {
      assert ("05")[..1] == "0";
    }
  }

  /** A key without exactly one comma, or with a piece that is not an int,
      makes load_results raise. */
  lemma DecodeRejectsMalformed()
    ensures DecodeKey("7") == None
    ensures DecodeKey("1,2,3") == None
    ensures DecodeKey("a,1") == None
  {
    SplitLiteral("7", ["7"]);
    SplitLiteral("1,2,3", ["1", "2", "3"]);
    SplitLiteral("a,1", ["a", "1"]);
  }

  /** A string written as its comma-free pieces joined by commas splits into them. */
  lemma SplitLiteral(k: string, parts: seq<string>)
    requires |parts| > 0 && forall i :: 0 <= i < |parts| ==> Comma !in parts[i]
    requires Join(parts, Comma) == k
    ensures Split(k, Comma) == parts
  {
    SplitJoin(parts, Comma);
  }

  /** The entries of one saved dictionary, in its iteration order: the key
      string of each state and the stored value. */
  function SaveEntries<V>(states: seq<State>, m: map<State, V>): (es: seq<(string, V)>)
    requires forall i :: 0 <= i < |states| ==> states[i] in m
    ensures |es| == |states|
    // every key is written in str() form and reads back as its own state
    ensures forall i :: 0 <= i < |states| ==> CanonicalKey(es[i].0) && DecodeKey(es[i].0) == Some(states[i]) && es[i].1 == m[states[i]]
  {
    var es := seq(|states|, i requires 0 <= i < |states| => (EncodeKey(states[i]), m[states[i]]));
    forall i | 0 <= i < |states|
      ensures CanonicalKey(es[i].0) && DecodeKey(es[i].0) == Some(states[i])
    {
      EncodedKeysAreCanonical(states[i], es[i].0);
    }
    es
  }

  /** The reading loop of load_results: every key is decoded and stored in
      order, a later entry overwriting an earlier one; a key that fails to
      decode aborts the load. */
  function LoadEntries<V>(es: seq<(string, V)>): (r: Option<map<State, V>>)
    ensures r.Some? <==> forall i :: 0 <= i < |es| ==> DecodeKey(es[i].0).Some?
  {
    if |es| == 0 then Some(map[])
    else
      var init := es[..|es| - 1];
      var last := es[|es| - 1];
      match LoadEntries(init)
      case None => None
      case Some(m) =>
        match DecodeKey(last.0)
        case None => None
        case Some(s) => Some(m[s := last.1])
  }

  /** The dictionary restricted to the listed states. */
  function Restrict<V>(states: seq<State>, m: map<State, V>): (r: map<State, V>)
    requires forall i :: 0 <= i < |states| ==> states[i] in m
    ensures forall s :: s in r <==> s in states
    ensures forall s :: s in r ==> r[s] == m[s]
  {
    map s | s in states :: m[s]
  }

  /** Saving a dictionary and loading it back gives the dictionary (restricted
      to the states saved). */
  lemma {:induction false} LoadSaveEntries<V>(states: seq<State>, m: map<State, V>)
    requires forall i :: 0 <= i < |states| ==> states[i] in m
    ensures LoadEntries(SaveEntries(states, m)) == Some(Restrict(states, m))
  {
    if |states| > 0 {
      var init := states[..|states| - 1];
      var last := states[|states| - 1];
      var es := SaveEntries(states, m);
      assert es[..|es| - 1] == SaveEntries(init, m);
      LoadSaveEntries(init, m);
      DecodeEncodeKey(last);
      LoadEntriesPush(es, Restrict(init, m), last);
      RestrictPush(states, m);
    }
  }

  /** One more entry whose key decodes to s stores its value under s. */
  lemma LoadEntriesPush<V>(es: seq<(string, V)>, prev: map<State, V>, s: State)
    requires |es| > 0
    requires LoadEntries(es[..|es| - 1]) == Some(prev)
    requires DecodeKey(es[|es| - 1].0) == Some(s)
    ensures LoadEntries(es) == Some(prev[s := es[|es| - 1].1])
  {
  }

  /** Restricting to one more state adds that state's entry. */
  lemma RestrictPush<V>(states: seq<State>, m: map<State, V>)
    requires |states| > 0
    requires forall i :: 0 <= i < |states| ==> states[i] in m
    ensures Restrict(states[..|states| - 1], m)[states[|states| - 1] := m[states[|states| - 1]]] == Restrict(states, m)
  {
    var init, last := states[..|states| - 1], states[|states| - 1];
    assert forall s :: s in states <==> s in init || s == last by {
      assert states == init + [last];
    }
  }

  /** A dictionary saved with all its keys is loaded back unchanged. */
  lemma LoadSaveTable<V>(states: seq<State>, m: map<State, V>)
    requires forall s :: s in m <==> s in states
    ensures LoadEntries(SaveEntries(states, m)) == Some(m)
  {
    LoadSaveEntries(states, m);
    RestrictAll(states, m);
  }

  /** Restricting to a list of all the keys changes nothing. */
  lemma RestrictAll<V>(states: seq<State>, m: map<State, V>)
    requires forall s :: s in m <==> s in states
    ensures Restrict(states, m) == m
  {
    var r := Restrict(states, m);
    forall s | s in m
      ensures s in r && r[s] == m[s]
    {
    }
    assert r.Keys == m.Keys;
  }
}
