/** What the texts of a scan request mean: its parts, its octet ranges, its host names, and which items are valid. */
module TargetSyntax {
  import opened AddressBudget
  import opened Decimals
  import opened Networks
  import opened Wrappers

  // ---------------------------------------------------------------- splitting and stripping

  function Join(parts: seq<string>, separator: char): string
    requires parts != []
  {
    if |parts| == 1 then parts[0] else parts[0] + [separator] + Join(parts[1..], separator)
  }

  /** Splitting loses nothing, and leaves no separator in a part. */
  lemma {:induction false} SplitJoins(s: string, separator: char)
    ensures Join(Split(s, separator), separator) == s
    ensures forall i | 0 <= i < |Split(s, separator)| :: separator !in Split(s, separator)[i]
  {
    if s != [] {
      SplitJoins(s[1..], separator);
      var rest := Split(s[1..], separator);
      if s[0] == separator {
        assert ([[]] + rest)[1..] == rest;
        assert Join([[]] + rest, separator) == [] + [separator] + Join(rest, separator);
      } else {
        var parts := [[s[0]] + rest[0]] + rest[1..];
        assert parts[1..] == rest[1..];
        assert Split(s, separator) == parts;
        if |parts| > 1 {
          assert Join(parts, separator) == [s[0]] + (rest[0] + [separator] + Join(rest[1..], separator));
        }
      }
      assert s == [s[0]] + s[1..];
    }
  }

  /** It is the only way to do so. */
  lemma {:induction false} SplitIsUnique(parts: seq<string>, separator: char)
    requires parts != [] && forall i | 0 <= i < |parts| :: separator !in parts[i]
    ensures Split(Join(parts, separator), separator) == parts
    decreases |parts|, |parts[0]|
  {
    var s, first, rest := Join(parts, separator), parts[0], parts[1..];
    if first == [] {
      if rest != [] {
        assert s == [separator] + Join(rest, separator);
        assert s[1..] == Join(rest, separator);
        SplitIsUnique(rest, separator);
        assert parts == [[]] + rest;
      } else {
        assert parts == [[]];
      }
    } else {
      var shorter := [first[1..]] + rest;
      assert first == [first[0]] + first[1..];
      assert s[0] == first[0] && first[0] in first;
      assert shorter[1..] == rest;
      assert s[1..] == Join(shorter, separator);
      SplitIsUnique(shorter, separator);
      assert parts == [[s[0]] + shorter[0]] + shorter[1..];
    }
  }

  /** Tab to carriage return, the separators 28 to 31, the blank, the next line and the no-break space. */
  predicate White(s: string) {
    forall i | 0 <= i < |s| ::
      s[i] as int in {9, 10, 11, 12, 13, 28, 29, 30, 31, 32, 133, 160}
  }

  lemma WhiteParts(a: string, b: string)
    ensures White(a + b) <==> White(a) && White(b)
  {
    assert forall i | 0 <= i < |a| :: (a + b)[i] == a[i];
    assert forall i | 0 <= i < |b| :: (a + b)[|a| + i] == b[i];
  }

  lemma SpaceIsWhite(c: char)
    ensures White([]) && (Space(c) <==> White([c]))
  {
    assert [c][0] == c;
  }

  lemma StripStep(s: string)
    ensures Strip([]) == []
    ensures s != [] && Space(s[0]) ==> Strip(s) == Strip(s[1..])
    ensures s != [] && !Space(s[0]) && Space(s[|s| - 1]) ==> Strip(s) == Strip(s[..|s| - 1])
    ensures s != [] && !Space(s[0]) && !Space(s[|s| - 1]) ==> Strip(s) == s
  {
  }

  lemma LongerBefore(s: string, before: string, middle: string, after: string)
    requires s != [] && s[1..] == before + middle + after
    ensures s == [s[0]] + before + middle + after
  {
    assert s == [s[0]] + s[1..];
    assert [s[0]] + (before + middle + after) == [s[0]] + before + middle + after;
  }

  lemma LongerAfter(s: string, before: string, middle: string, after: string)
    requires s != [] && s[..|s| - 1] == before + middle + after
    ensures s == before + middle + (after + [s[|s| - 1]])
  {
    var last := [s[|s| - 1]];
    assert s == s[..|s| - 1] + last;
    assert (before + middle + after) + last == before + middle + (after + last);
  }

  lemma Unchanged(s: string)
    ensures s == [] + s + []
  {
  }

  /** Stripping takes white space from both ends, all of it, and nothing else. */
  lemma {:induction false} StripMeans(s: string) returns (before: string, after: string)
    ensures s == before + Strip(s) + after && White(before) && White(after)
    ensures Strip(s) != [] ==> !White([Strip(s)[0]]) && !White([Strip(s)[|Strip(s)| - 1]])
    decreases |s|
  {
    hide White, Space, Strip;
    StripStep(s);
    SpaceIsWhite(' ');
    before, after := [], [];
    if s != [] {
      var n := |s| - 1;
      SpaceIsWhite(s[0]);
      SpaceIsWhite(s[n]);
      if Space(s[0]) {
        before, after := StripMeans(s[1..]);
        LongerBefore(s, before, Strip(s), after);
        WhiteParts([s[0]], before);
        before := [s[0]] + before;
      } else if Space(s[n]) {
        before, after := StripMeans(s[..n]);
        LongerAfter(s, before, Strip(s), after);
        WhiteParts(after, [s[n]]);
        after := after + [s[n]];
      } else {
        Unchanged(s);
      }
    }
  }

  /** `text` is `core` with nothing but white space around it, and `core` has none at its ends. */
  ghost predicate Wraps(text: string, core: string) {
    && (exists before, after :: White(before) && White(after) && text == before + core + after)
    && (core != [] ==> !White([core[0]]) && !White([core[|core| - 1]]))
  }

  lemma StripWraps(s: string)
    ensures Wraps(s, Strip(s))
  {
    var before, after := StripMeans(s);
  }

  /** The items of a request are what stands between its commas, without the white space around it. */
  lemma ItemsMean(target: string)
    ensures
      exists parts: seq<string>, list: string ::
        && parts != [] && |parts| == |Items(target)| && Wraps(target, list) && list == Join(parts, ',')
        && forall i | 0 <= i < |parts| :: ',' !in parts[i] && Wraps(parts[i], Items(target)[i])
  {
    hide Wraps, Strip;
    var list := Strip(target);
    var parts := Split(list, ',');
    StripWraps(target);
    SplitJoins(list, ',');
    forall i | 0 <= i < |parts|
      ensures Wraps(parts[i], Items(target)[i])
    {
      StripWraps(parts[i]);
    }
    assert |parts| == |Items(target)| && Wraps(target, list) && list == Join(parts, ',');
  }

  // ---------------------------------------------------------------- numbers and octet ranges

  /** Reading a number inverts printing it. */
  lemma {:induction false} ValueReadsDecimal(n: nat)
    ensures Digits(Decimal(n)) && Value(Decimal(n)) == n
  {
    var text := Decimal(n);
    assert '0' as int == 48 && '9' as int == 57;
    if n >= 10 {
      ValueReadsDecimal(n / 10);
      assert text[..|text| - 1] == Decimal(n / 10);
    } else {
      assert text[..|text| - 1] == [];
    }
    assert text[|text| - 1] == '0' + (n % 10) as char;
  }

  /** An octet text that stands for the values from `lo` to `hi`: one number, or two with a hyphen between. */
  predicate Spells(octet: string, first: string, last: string) {
    && Digits(first) && Digits(last) && Value(first) <= Value(last) <= 255
    && ((octet == first && first == last) || octet == first + "-" + last)
  }

  lemma DigitsHaveNoHyphen(s: string)
    requires Digits(s)
    ensures '-' !in s && '.' !in s
  {
    assert '-' as int == 45 && '.' as int == 46;
  }

  /** An octet of a range is exactly such a text, and its span is the number of values. */
  lemma OctetMeans(octet: string)
    ensures OctetRange(octet) <==> exists first, last :: Spells(octet, first, last)
    ensures forall first, last | Spells(octet, first, last) ::
      OctetRange(octet) && Span(octet) == Value(last) - Value(first) + 1
      && forall v: nat :: v in Octets(octet) <==> Value(first) <= v <= Value(last)
  {
    SplitJoins(octet, '-');
    if OctetRange(octet) {
      var bounds := Split(octet, '-');
      if |bounds| == 1 {
        assert Spells(octet, bounds[0], bounds[0]);
      } else {
        assert bounds[1..] == [bounds[1]];
        assert Spells(octet, bounds[0], bounds[1]);
      }
    }
    forall first, last | Spells(octet, first, last)
      ensures OctetRange(octet) && Span(octet) == Value(last) - Value(first) + 1
      ensures forall v: nat :: v in Octets(octet) <==> Value(first) <= v <= Value(last)
    {
      SpelledIsRange(octet, first, last);
    }
  }

  lemma SpelledIsRange(octet: string, first: string, last: string)
    requires Spells(octet, first, last)
    ensures OctetRange(octet) && Span(octet) == Value(last) - Value(first) + 1
    ensures forall v: nat :: v in Octets(octet) <==> Value(first) <= v <= Value(last)
  {
    DigitsHaveNoHyphen(first);
    DigitsHaveNoHyphen(last);
    if octet == first && first == last {
      SplitIsUnique([first], '-');
    } else {
      assert [first, last][1..] == [last];
      SplitIsUnique([first, last], '-');
    }
  }

  /** An item is a range exactly if it is four octets with dots between, at least one of which has a hyphen. */
  lemma RangeMeans(item: string)
    ensures IsRange(item) <==>
      exists octets: seq<string> ::
        && |octets| == 4 && item == Join(octets, '.')
        && (forall i | 0 <= i < 4 :: OctetRange(octets[i])) && exists i :: 0 <= i < 4 && '-' in octets[i]
  {
    SplitJoins(item, '.');
    if octets: seq<string> :| |octets| == 4 && item == Join(octets, '.')
                              && (forall i | 0 <= i < 4 :: OctetRange(octets[i])) && exists i :: 0 <= i < 4 && '-' in octets[i] {
      forall i | 0 <= i < 4
        ensures '.' !in octets[i]
      {
        RangeHasNoDot(octets[i]);
      }
      SplitIsUnique(octets, '.');
    }
    if IsRange(item) {
      assert item == Join(Split(item, '.'), '.');
    }
  }

  lemma RangeHasNoDot(octet: string)
    requires OctetRange(octet)
    ensures '.' !in octet
  {
    OctetMeans(octet);
    var first, last :| Spells(octet, first, last);
    DigitsHaveNoHyphen(first);
    DigitsHaveNoHyphen(last);
  }

  // ---------------------------------------------------------------- valid items

  /** Labels with dots between: 1 to 63 letters, digits and hyphens each, no hyphen first or last. */
  ghost predicate IsHostname(item: string) {
    exists labels: seq<string> ::
      labels != [] && item == Join(labels, '.') && forall i | 0 <= i < |labels| :: IsLabel(labels[i])
  }

  predicate IsLabel(text: string) {
    && 1 <= |text| <= 63 && text[0] != '-' && text[|text| - 1] != '-'
    && forall i | 0 <= i < |text| ::
      'a' <= text[i] <= 'z' || 'A' <= text[i] <= 'Z' || '0' <= text[i] <= '9' || text[i] == '-'
  }

  lemma LabelIff(text: string)
    ensures HostLabel(text) <==> IsLabel(text)
    ensures IsLabel(text) ==> '.' !in text
  {
    assert '0' as int == 48 && '9' as int == 57 && 'A' as int == 65 && 'Z' as int == 90;
    assert 'a' as int == 97 && 'z' as int == 122 && '-' as int == 45 && '.' as int == 46;
  }

  lemma HostnameIff(item: string)
    ensures Hostname(item) <==> IsHostname(item)
  {
    SplitJoins(item, '.');
    if Hostname(item) {
      var labels := Split(item, '.');
      forall i | 0 <= i < |labels|
        ensures IsLabel(labels[i])
      {
        LabelIff(labels[i]);
      }
    }
    if IsHostname(item) {
      var labels :| labels != [] && item == Join(labels, '.') && forall i | 0 <= i < |labels| :: IsLabel(labels[i]);
      forall i | 0 <= i < |labels|
        ensures '.' !in labels[i] && HostLabel(labels[i])
      {
        LabelIff(labels[i]);
      }
      SplitIsUnique(labels, '.');
    }
  }

  /** Made of what addresses are written with. */
  predicate LooksLikeAddress(item: string) {
    item != "" && forall i | 0 <= i < |item| :: '0' <= item[i] <= '9' || item[i] == '.' || item[i] == '/' || item[i] == '-'
  }

  /**
   An item is valid exactly if it is an address, a network other than all of IPv4, an octet range, or a host
   name that does not look like an address.
   */
  lemma ItemMeans(item: string, notation: Notation)
    ensures
      var problem, network := CheckItem(item, notation), notation.network(item);
      && (problem == None <==>
            || notation.address(item)
            || (network.Some? && network.value != Net(false, 0, 0))
            || (network.None? && (IsRange(item) || (!LooksLikeAddress(item) && IsHostname(item)))))
      && (problem == Some(WholeInternet) <==> !notation.address(item) && network == Some(Net(false, 0, 0)))
      && (problem.Some? && problem != Some(WholeInternet) ==> problem == Some(InvalidTarget(item)))
  {
    assert '0' as int == 48 && '9' as int == 57;
    assert AddressLike(item) <==> LooksLikeAddress(item);
    HostnameIff(item);
  }
}
