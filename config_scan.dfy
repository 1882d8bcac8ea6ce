/**
 * The configuration cross-check (`check_config_categories`): collect every
 * `#category=<value>` reference in the site configuration, where the value
 * is the longest non-empty run of characters that are neither whitespace
 * nor quotes, scanning left to right without overlap, and report for each
 * distinct value whether some post uses it. The configuration text is an
 * input: `None` when the file cannot be read.
 */
module ConfigScan {
  import opened Wrappers
  import opened Strings
  import opened FrontMatter
  import opened Aggregate

  const Marker := "#category="

  /** Unicode whitespace as Python's `str.isspace` (and the `\s` class of `re`) sees it. */
  predicate IsWhitespace(ch: char)
  {
    var n := ch as int;
    (9 <= n <= 13) || (28 <= n <= 32) || n == 0x85 || n == 0xA0 || n == 0x1680
    || (0x2000 <= n <= 0x200A) || n == 0x2028 || n == 0x2029 || n == 0x202F
    || n == 0x205F || n == 0x3000
  }

  /** A character that ends a value. */
  predicate IsStop(ch: char)
  {
    IsWhitespace(ch) || ch == '\'' || ch == '"'
  }

  /** A reference starts at `i`: the marker, then at least one value character. */
  predicate TokenAt(s: string, i: int)
  {
    IsAt(s, Marker, i) && i + |Marker| < |s| && !IsStop(s[i + |Marker|])
  }

  /** `v` is a whole value in `s`, directly after a marker at `k`: nothing but a stop or the end follows it. */
  predicate ValueAt(s: string, v: string, k: int)
  {
    IsAt(s, Marker + v, k) && (k + |Marker| + |v| == |s| || IsStop(s[k + |Marker| + |v|]))
  }

  /** A value as the pattern admits it: non-empty, without whitespace or quotes. */
  predicate WellFormedValue(v: string)
  {
    v != [] && forall ch :: ch in v ==> !IsStop(ch)
  }

  /** Where the value starting at `j` ends: the first stop character at or after `j`, or the end. */
  function ValueEnd(s: string, j: nat): (e: nat)
    requires j <= |s|
    ensures j <= e <= |s|
    ensures forall k :: j <= k < e ==> !IsStop(s[k])
    ensures e == |s| || IsStop(s[e])
    decreases |s| - j
  {
    if j == |s| || IsStop(s[j]) then j else ValueEnd(s, j + 1)
  }

  /** The specification of the scan: the values referenced from index `i` on, in order. */
  function Scan(s: string, i: nat): seq<string>
    requires i <= |s|
    decreases |s| - i
  {
    if i == |s| then []
    else if TokenAt(s, i) then
      var e := ValueEnd(s, i + |Marker|);
      [s[i + |Marker|..e]] + Scan(s, e)
    else Scan(s, i + 1)
  }

  /** Every value the scan yields is well formed and sits, whole, right after a marker. */
  lemma {:induction false} ScanValuesWellFormed(s: string, i: nat)
    requires i <= |s|
    ensures forall v :: v in Scan(s, i) ==> WellFormedValue(v) && exists k :: i <= k && ValueAt(s, v, k)
    decreases |s| - i
  {
    if i < |s| {
      if TokenAt(s, i) {
        var e := ValueEnd(s, i + |Marker|);
        var v := s[i + |Marker|..e];
        ScanValuesWellFormed(s, e);
        assert s[i..i + |Marker| + |v|] == s[i..i + |Marker|] + v;
        assert ValueAt(s, v, i);
        assert forall ch :: ch in v ==> !IsStop(ch) by {
          forall ch | ch in v ensures !IsStop(ch) {
            var k :| 0 <= k < |v| && v[k] == ch;
            assert ch == s[i + |Marker| + k];
          }
        }
        forall w | w in Scan(s, e) ensures exists k :: i <= k && ValueAt(s, w, k) {
          var k :| e <= k && ValueAt(s, w, k);
        }
      } else {
        var next := i + 1;
        ScanValuesWellFormed(s, next);
        forall w | w in Scan(s, next) ensures exists k :: i <= k && ValueAt(s, w, k) {
          var k :| next <= k && ValueAt(s, w, k);
        }
      }
    }
  }

  /** The scan finds nothing exactly when no reference starts at or after `i`. */
  lemma {:induction false} ScanEmptyIff(s: string, i: nat)
    requires i <= |s|
    ensures Scan(s, i) == [] <==> forall k :: i <= k ==> !TokenAt(s, k)
    decreases |s| - i
  {
    if i < |s| && !TokenAt(s, i) {
      ScanEmptyIff(s, i + 1);
    }
  }

  /** The source's `'#category=' in content` guard never changes the result. */
  lemma GuardIsRedundant(s: string)
    requires !Contains(s, Marker)
    ensures Scan(s, 0) == []
  {
    ScanEmptyIff(s, 0);
    forall k | 0 <= k
      ensures !TokenAt(s, k)
    {
    }
  }

  /** The hand-coded scanner standing for `re.findall(r'#category=([^\s\'"]+)', content)`. */
  method ScanConfig(s: string) returns (values: seq<string>)
    ensures values == Scan(s, 0)
    ensures forall v :: v in values ==> WellFormedValue(v) && exists k :: ValueAt(s, v, k)
  {
    values := [];
    var i := 0;
    while i < |s|
      invariant 0 <= i <= |s|
      invariant values + Scan(s, i) == Scan(s, 0)
      decreases |s| - i
    {
      if i + |Marker| < |s| && s[i..i + |Marker|] == Marker && !IsStop(s[i + |Marker|]) {
        var j := i + |Marker|;
        while j < |s| && !IsStop(s[j])
          invariant i + |Marker| <= j <= |s|
          invariant forall k :: i + |Marker| <= k < j ==> !IsStop(s[k])
          decreases |s| - j
        {
          j := j + 1;
        }
        assert TokenAt(s, i) && j == ValueEnd(s, i + |Marker|);
        assert Scan(s, i) == [s[i + |Marker|..j]] + Scan(s, j);
        values := values + [s[i + |Marker|..j]];
        i := j;
      } else {
        assert !TokenAt(s, i);
        i := i + 1;
      }
    }
    ScanValuesWellFormed(s, 0);
  }

  /**
   * `check_config_categories` up to the printing: for each distinct value
   * the configuration references, whether some post lists it. A missing or
   * unreadable configuration references nothing.
   */
  method CheckConfigCategories(entries: seq<Entry>, config: Option<string>) returns (status: map<string, bool>)
    ensures forall c :: c in status <==> config.Some? && c in Scan(config.value, 0)
    ensures forall c :: c in status ==> (status[c] <==> exists i :: 0 <= i < |entries| && c in entries[i].cats)
  {
    var used := UsedCategories(entries);
    var references: seq<string> := [];
    if config.Some? {
      var content := config.value;
      if Contains(content, Marker) {
        references := ScanConfig(content);
      } else {
        GuardIsRedundant(content);
      }
    }
    status := map c | c in references :: c in used;
  }
}
