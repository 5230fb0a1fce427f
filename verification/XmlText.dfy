/** Comparing strings, as XMLString does: character by character, the terminator below every character. */
module XmlText {
  import opened Options

  /** A string without the terminator in it. */
  type Text = s: string | '\0' !in s witness ""

  function Unit(s: string, i: nat): int { if i < |s| then s[i] as int else 0 }

  function CompareString(a: Text, b: Text): int
  {
    if a == "" || b == "" || a[0] != b[0] then Unit(a, 0) - Unit(b, 0) else CompareString(a[1..], b[1..])
  }

  /** A string may be NULL; then only the other one's length counts. */
  function CompareNullable(a: Option<Text>, b: Option<Text>): int {
    if a.None? then (if b.None? then 0 else -|b.value|)
    else if b.None? then |a.value|
    else CompareString(a.value, b.value)
  }

  method Compare(str1: Option<Text>, str2: Option<Text>) returns (r: int)
    ensures r == CompareNullable(str1, str2)
  {
    if str1.None? || str2.None? {
      return if str1.None? then (if str2.None? then 0 else -|str2.value|) else |str1.value|;
    }
    r := CompareCharacters(str1.value, str2.value);
  }

  method CompareCharacters(str1: Text, str2: Text) returns (r: int)
    ensures r == CompareString(str1, str2)
  {
    var k := 0;
    while true
      invariant k <= |str1| && k <= |str2|
      invariant CompareString(str1[k..], str2[k..]) == CompareString(str1, str2)
      decreases |str1| - k
    {
      if Unit(str1, k) != Unit(str2, k) {
        return Unit(str1, k) - Unit(str2, k);
      }
      if k == |str1| {
        return 0;
      }
      k := k + 1;
    }
  }

  lemma {:induction false} CompareEqual(a: Text, b: Text)
    ensures CompareString(a, b) == 0 <==> a == b
  {
    if a != "" && b != "" && a[0] == b[0] {
      CompareEqual(a[1..], b[1..]);
      assert a == [a[0]] + a[1..] && b == [b[0]] + b[1..];
    }
  }

  lemma {:induction false} CompareOpposite(a: Text, b: Text)
    ensures CompareString(a, b) == -CompareString(b, a)
  {
    if a != "" && b != "" && a[0] == b[0] {
      CompareOpposite(a[1..], b[1..]);
    }
  }

  lemma {:induction false} CompareTransitive(a: Text, b: Text, c: Text)
    requires CompareString(a, b) <= 0 && CompareString(b, c) <= 0
    ensures CompareString(a, c) <= 0
    ensures CompareString(a, b) < 0 || CompareString(b, c) < 0 ==> CompareString(a, c) < 0
  {
    if a != "" && b != "" && c != "" && a[0] == b[0] == c[0] {
      CompareTransitive(a[1..], b[1..], c[1..]);
    }
  }

  /** a comes before b in a dictionary: it ends first, or has the smaller character, where they differ first. */
  predicate Before(a: Text, b: Text) {
    exists k :: 0 <= k <= |a| && k < |b| && a[..k] == b[..k] && (k < |a| ==> a[k] < b[k])
  }

  /** The comparison is that of a dictionary. */
  lemma {:induction false} CompareLessIff(a: Text, b: Text)
    ensures CompareString(a, b) < 0 <==> Before(a, b)
  {
    if a != "" && b != "" && a[0] == b[0] {
      CompareLessIff(a[1..], b[1..]);
      if Before(a, b) {
        var k :| 0 <= k <= |a| && k < |b| && a[..k] == b[..k] && (k < |a| ==> a[k] < b[k]);
        assert a[1..][..k - 1] == a[1..k] == b[1..k] == b[1..][..k - 1];
      }
      if Before(a[1..], b[1..]) {
        var k :| 0 <= k <= |a[1..]| && k < |b[1..]| && a[1..][..k] == b[1..][..k]
            && (k < |a[1..]| ==> a[1..][k] < b[1..][k]);
        assert a[..k + 1] == [a[0]] + a[1..][..k] == [b[0]] + b[1..][..k] == b[..k + 1];
      }
    } else if a == "" && b != "" {
      assert a[..0] == b[..0];
    } else if a != "" && b != "" {
      FirstDiffers(a, b);
    }
  }

  lemma FirstDiffers(a: Text, b: Text)
    requires a != "" && b != "" && a[0] != b[0]
    ensures Before(a, b) <==> a[0] < b[0]
  {
    if a[0] < b[0] {
      assert a[..0] == b[..0];
    }
    forall k | 1 <= k <= |a| && k < |b| ensures a[..k] != b[..k] {
      assert a[..k][0] != b[..k][0];
    }
  }

  predicate AtMost(a: Text, b: Text) { CompareString(a, b) <= 0 }
}
