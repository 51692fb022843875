/** String helpers the merge, fetch and output layers share: splitting and joining on a
    separator, first and last index, and the byte order used by Go's `sort.Strings`. */
module Text {

  /** Index of the first `c` in `s`, or `|s|` when there is none. */
  function IndexOf(s: string, c: char): (i: nat)
    ensures i <= |s|
    ensures i < |s| ==> s[i] == c
    ensures forall k :: 0 <= k < i ==> s[k] != c
  {
    if s == "" || s[0] == c then 0 else
      var rest := IndexOf(s[1..], c);
      assert forall k :: 1 <= k < 1 + rest ==> s[k] == s[1..][k - 1];
      1 + rest
  }

  /** Index of the last `c` in the first `n` characters, or -1 when there is none. */
  function LastIndexBelow(s: string, c: char, n: nat): (i: int)
    requires n <= |s|
    ensures -1 <= i < n
    ensures i >= 0 ==> s[i] == c
    ensures forall k :: i < k < n ==> s[k] != c
  {
    if n == 0 then -1 else if s[n - 1] == c then n - 1 else LastIndexBelow(s, c, n - 1)
  }

  /** Index of the last `c` in `s`, or -1 when there is none. */
  function LastIndexOf(s: string, c: char): (i: int)
    ensures -1 <= i < |s|
    ensures i >= 0 ==> s[i] == c
    ensures forall k :: i < k < |s| ==> s[k] != c
  {
    LastIndexBelow(s, c, |s|)
  }

  /** An index with the two defining properties is the first index. */
  lemma IndexOfIs(s: string, c: char, i: nat)
    requires i <= |s| && (i < |s| ==> s[i] == c)
    requires forall k :: 0 <= k < i ==> s[k] != c
    ensures IndexOf(s, c) == i
  {
  }

  /** `strings.Split` on a one-character separator. */
  function Split(s: string, sep: char): (parts: seq<string>)
    ensures |parts| >= 1
    decreases |s|
  {
    var i := IndexOf(s, sep);
    if i == |s| then [s] else [s[..i]] + Split(s[i + 1..], sep)
  }

  /** Splitting yields separator-free fields that join back to the text. */
  lemma {:induction false} JoinOfSplit(s: string, sep: char)
    ensures forall k :: 0 <= k < |Split(s, sep)| ==> sep !in Split(s, sep)[k]
    ensures Join(Split(s, sep), sep) == s
    decreases |s|
  {
    var i, parts := IndexOf(s, sep), Split(s, sep);
    if i < |s| {
      JoinOfSplit(s[i + 1..], sep);
      assert parts[1..] == Split(s[i + 1..], sep);
      assert s == s[..i] + [sep] + s[i + 1..];
    }
  }

  /** `strings.Join` with a one-character separator. */
  function Join(parts: seq<string>, sep: char): (s: string)
  {
    if |parts| == 0 then ""
    else if |parts| == 1 then parts[0]
    else parts[0] + [sep] + Join(parts[1..], sep)
  }

  /** Splitting undoes joining on separator-free fields. */
  lemma {:induction false} SplitOfJoin(parts: seq<string>, sep: char)
    requires |parts| >= 1
    requires forall k :: 0 <= k < |parts| ==> sep !in parts[k]
    ensures Split(Join(parts, sep), sep) == parts
  {
    var s := Join(parts, sep);
    if |parts| == 1 {
      IndexOfIs(s, sep, |s|);
    } else {
      var rest := Join(parts[1..], sep);
      assert s == parts[0] + [sep] + rest;
      IndexOfIs(s, sep, |parts[0]|);
      assert s[|parts[0]| + 1..] == rest;
      SplitOfJoin(parts[1..], sep);
      assert s[..|parts[0]|] == parts[0];
    }
  }

  /** Where field `k` starts inside the joined text. */
  function Offset(parts: seq<string>, k: nat): (o: nat)
    requires k < |parts|
  {
    if k == 0 then 0 else Offset(parts, k - 1) + |parts[k - 1]| + 1
  }

  lemma {:induction false} OffsetOfRest(parts: seq<string>, k: nat)
    requires 0 < k < |parts|
    ensures Offset(parts, k) == |parts[0]| + 1 + Offset(parts[1..], k - 1)
  {
    if k > 1 { OffsetOfRest(parts, k - 1); }
  }

  lemma OffsetOfFirst(parts: seq<string>)
    requires parts != []
    ensures Offset(parts, 0) == 0
  {
  }

  lemma JoinHead(parts: seq<string>, sep: char)
    requires parts != []
    ensures Join(parts, sep) == if |parts| == 1 then parts[0] else parts[0] + [sep] + Join(parts[1..], sep)
  {
  }

  /** Cutting and pasting behind a head `h` is cutting and pasting in the rest. */
  lemma CutBehind(h: string, t: string, o: nat, n: nat, text: string)
    requires o + n <= |t|
    ensures var s := h + t;
            && s[|h| + o..|h| + o + n] == t[o..o + n]
            && s[..|h| + o] + text + s[|h| + o + n..] == h + (t[..o] + text + t[o + n..])
  {
  }

  /** Cutting a field out of the joined text and pasting another in equals replacing the
      field before joining. */
  lemma {:induction false} SpliceIsFieldUpdate(parts: seq<string>, sep: char, k: nat, text: string)
    requires k < |parts|
    ensures Offset(parts, k) + |parts[k]| <= |Join(parts, sep)|
    ensures Join(parts, sep)[Offset(parts, k)..Offset(parts, k) + |parts[k]|] == parts[k]
    ensures Join(parts, sep)[..Offset(parts, k)] + text + Join(parts, sep)[Offset(parts, k) + |parts[k]|..]
         == Join(parts[k := text], sep)
  {
    hide Offset, Join;
    var s := Join(parts, sep);
    var p' := parts[k := text];
    JoinHead(parts, sep);
    JoinHead(p', sep);
    if k == 0 {
      assert Offset(parts, 0) == 0 by { OffsetOfFirst(parts); }
      assert p'[1..] == parts[1..];
      var tail := if |parts| == 1 then "" else [sep] + Join(parts[1..], sep);
      assert s == parts[0] + tail && Join(p', sep) == text + tail;
    } else {
      OffsetOfRest(parts, k);
      SpliceIsFieldUpdate(parts[1..], sep, k - 1, text);
      assert p'[1..] == parts[1..][k - 1 := text];
      var t, h := Join(parts[1..], sep), parts[0] + [sep];
      assert s == h + t && Join(p', sep) == h + Join(p'[1..], sep);
      CutBehind(h, t, Offset(parts[1..], k - 1), |parts[k]|, text);
    }
  }

  /** `unicode.ToLower` of the runes beyond ASCII comes from the library. */
  function LowerRune(c: char, lower: map<char, char>): (r: char) {
    if 'A' <= c <= 'Z' then c + 32 as char else if c < 128 as char then c else if c in lower then lower[c] else c
  }

  function ToLower(s: string, lower: map<char, char>): (r: string)
    ensures |r| == |s|
  {
    seq(|s|, i requires 0 <= i < |s| => LowerRune(s[i], lower))
  }

  /** Go's byte-wise `<` on strings. */
  predicate Less(a: string, b: string)
  {
    if b == "" then false
    else if a == "" then true
    else if a[0] != b[0] then a[0] < b[0]
    else Less(a[1..], b[1..])
  }

  /** The two strings agree up to `k`, and there `a` ends or has the smaller character. */
  ghost predicate DecidedAt(a: string, b: string, k: nat) {
    k <= |a| && k < |b| && a[..k] == b[..k] && (k == |a| || a[k] < b[k])
  }

  /** The order by positions: the first difference decides, and a proper prefix comes first. */
  lemma {:induction false} LessExactly(a: string, b: string)
    ensures Less(a, b) <==> exists k: nat :: DecidedAt(a, b, k)
  {
    if b == "" {
    } else if a == "" || a[0] < b[0] {
      assert DecidedAt(a, b, 0);
    } else {
      LessExactly(a[1..], b[1..]);
      if k: nat :| DecidedAt(a[1..], b[1..], k) && a[0] == b[0] {
        assert a[..k + 1] == [a[0]] + a[1..][..k] && b[..k + 1] == [b[0]] + b[1..][..k];
        assert DecidedAt(a, b, k + 1);
      }
      if k: nat :| DecidedAt(a, b, k) {
        assert k > 0 && a[..k][0] == b[..k][0];
        assert a[1..][..k - 1] == a[..k][1..] && b[1..][..k - 1] == b[..k][1..];
        assert DecidedAt(a[1..], b[1..], k - 1);
      }
    }
  }

  /** Lower-casing maps the capital letters to the small ones and leaves the rest of ASCII alone. */
  lemma ToLowerExactly(s: string, lower: map<char, char>, k: nat)
    requires k < |s|
    ensures forall i :: 0 <= i < 26 && s[k] == "ABCDEFGHIJKLMNOPQRSTUVWXYZ"[i] ==>
              ToLower(s, lower)[k] == "abcdefghijklmnopqrstuvwxyz"[i]
    ensures s[k] < 128 as char && s[k] !in "ABCDEFGHIJKLMNOPQRSTUVWXYZ" ==> ToLower(s, lower)[k] == s[k]
    ensures s[k] >= 128 as char ==> ToLower(s, lower)[k] == if s[k] in lower then lower[s[k]] else s[k]
  {
    var capitals := "ABCDEFGHIJKLMNOPQRSTUVWXYZ";
    forall i | 0 <= i < 26 && s[k] == capitals[i] ensures ToLower(s, lower)[k] == "abcdefghijklmnopqrstuvwxyz"[i] {
      assert capitals[i] == ('A' as int + i) as char;
      assert "abcdefghijklmnopqrstuvwxyz"[i] == ('a' as int + i) as char;
    }
    if 'A' <= s[k] <= 'Z' {
      assert capitals[s[k] as int - 'A' as int] == s[k];
    }
  }

  lemma LessTotal(a: string, b: string)
    ensures !(Less(a, b) && Less(b, a))
    ensures a != b ==> Less(a, b) || Less(b, a)
    ensures Less(a, b) ==> a != b
  {
    if a != "" && b != "" && a[0] == b[0] {
      LessTotal(a[1..], b[1..]);
      assert a == [a[0]] + a[1..] && b == [b[0]] + b[1..];
    }
  }

  lemma LessTransitive(a: string, b: string, c: string)
    requires Less(a, b) && Less(b, c)
    ensures Less(a, c)
  {
    if a != "" && a[0] == b[0] == c[0] {
      LessTransitive(a[1..], b[1..], c[1..]);
    }
  }

  /** Pairwise distinct elements. */
  ghost predicate Distinct<T>(s: seq<T>) {
    forall i, j :: 0 <= i < j < |s| ==> s[i] != s[j]
  }

  /** `r` is the part of `s` at the positions `at`, in order. */
  ghost predicate Selects<T>(s: seq<T>, at: seq<nat>, r: seq<T>) {
    && |at| == |r| && (forall k :: 0 <= k < |r| ==> at[k] < |s| && r[k] == s[at[k]])
    && forall k, l :: 0 <= k < l < |at| ==> at[k] < at[l]
  }

  lemma SelectsMore<T>(s: seq<T>, at: seq<nat>, r: seq<T>, x: T)
    requires Selects(s, at, r)
    ensures Selects(s + [x], at, r) && Selects(s + [x], at + [|s|], r + [x])
  {
  }

  lemma NothingSelected<T>(s: seq<T>)
    ensures Selects(s, [], [])
  {
  }

  lemma TakeOne<T>(s: seq<T>, n: nat)
    requires n < |s|
    ensures s[..n + 1] == s[..n] + [s[n]] && s[..n + 1][..n] == s[..n]
  {
  }

  lemma TakeTwo<T>(prefix: seq<T>, s: seq<T>, n: nat)
    requires n + 1 < |s|
    ensures prefix + s[..n + 2] == prefix + s[..n] + [s[n], s[n + 1]]
  {
  }
}
