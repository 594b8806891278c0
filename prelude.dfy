/** Small shared vocabulary: optional values, results, validation issues, and
    the handful of JavaScript string methods the modelled code calls
    (`startsWith`, `includes`, `toLowerCase`, `replace` with a string pattern). */
module Prelude {

  datatype Option<+T> = None | Some(value: T)

  datatype Result<+T, +E> = Ok(value: T) | Err(error: E)

  /** One entry of a schema validator's error list: the field it is about and
      the message attached to the failed check. */
  datatype Issue<F> = Issue(field: F, message: string)

  /** One check of a schema: no issue when `ok`, otherwise one issue for `field`. */
  function Need<F(==,!new)>(ok: bool, field: F, message: string): (r: seq<Issue<F>>)
    ensures ok <==> r == []
    ensures !ok ==> r == [Issue(field, message)]
    ensures forall g :: Flags(r, g) <==> !ok && g == field
  {
    if ok then [] else
      var r := [Issue(field, message)];
      assert r[0].field == field;
      r
  }

  /** Some issue of the list is about `field`. */
  predicate Flags<F(==,!new)>(issues: seq<Issue<F>>, field: F)
  {
    exists i :: 0 <= i < |issues| && issues[i].field == field
  }

  lemma FlagsConcat<F(!new)>(a: seq<Issue<F>>, b: seq<Issue<F>>, field: F)
    ensures Flags(a + b, field) <==> Flags(a, field) || Flags(b, field)
  {
    var ab := a + b;
    if Flags(ab, field) {
      var i :| 0 <= i < |ab| && ab[i].field == field;
      if i >= |a| {
        assert b[i - |a|] == ab[i];
      }
    }
    if Flags(b, field) {
      var i :| 0 <= i < |b| && b[i].field == field;
      assert ab[|a| + i] == b[i];
    }
    if Flags(a, field) {
      var i :| 0 <= i < |a| && a[i].field == field;
      assert ab[i] == a[i];
    }
  }

  /** No issue is about any field exactly when there is no issue. */
  lemma EmptyIffNoFlags<F(!new)>(issues: seq<Issue<F>>)
    ensures issues == [] <==> forall g :: !Flags(issues, g)
  {
    if issues != [] {
      assert Flags(issues, issues[0].field);
    }
  }

  /** An object schema: every field's checks, in the order of `fields`. */
  function Collect<F>(fields: seq<F>, check: F -> seq<Issue<F>>): seq<Issue<F>>
  {
    if fields == [] then [] else check(fields[0]) + Collect(fields[1..], check)
  }

  /** When each field's checks only ever report that field, the collected
      list reports a field exactly when it is listed and its checks fail. */
  lemma {:induction false} CollectFlags<F(!new)>(fields: seq<F>, check: F -> seq<Issue<F>>, g: F)
    requires forall h, k :: Flags(check(h), k) ==> k == h
    ensures Flags(Collect(fields, check), g) <==> g in fields && Flags(check(g), g)
  {
    if fields != [] {
      CollectFlags(fields[1..], check, g);
      FlagsConcat(check(fields[0]), Collect(fields[1..], check), g);
      assert fields == [fields[0]] + fields[1..];
    }
  }

  /** `s.startsWith(p)` */
  predicate StartsWith(s: string, p: string)
  {
    |p| <= |s| && s[..|p|] == p
  }

  /** `s.includes(sub)`, scanning left to right. */
  predicate Contains(s: string, sub: string)
    decreases |s|
  {
    StartsWith(s, sub) || (|s| > 0 && Contains(s[1..], sub))
  }

  /** `includes` holds exactly when `sub` occurs at some position of `s`. */
  lemma {:induction false} ContainsIff(s: string, sub: string)
    ensures Contains(s, sub) <==> exists i :: 0 <= i <= |s| && StartsWith(s[i..], sub)
    decreases |s|
  {
    if |s| > 0 {
      ContainsIff(s[1..], sub);
      if Contains(s[1..], sub) {
        var i :| 0 <= i <= |s[1..]| && StartsWith(s[1..][i..], sub);
        assert s[1..][i..] == s[i + 1..];
      }
      assert s[0..] == s;
      if i :| 0 <= i <= |s| && StartsWith(s[i..], sub) {
        if i > 0 {
          assert s[1..][i - 1..] == s[i..];
        }
      }
    } else {
      assert s[0..] == s;
    }
  }

  /** An occurrence of `sub` at a known position makes `includes` true. */
  lemma ContainsAt(s: string, sub: string, i: nat)
    requires i <= |s| && StartsWith(s[i..], sub)
    ensures Contains(s, sub)
  {
    ContainsIff(s, sub);
  }

  /** `includes` of a string in itself with something around it. */
  lemma ContainsInfix(pre: string, sub: string, post: string)
    ensures Contains(pre + sub + post, sub)
  {
    var s := pre + sub + post;
    assert s[|pre|..][..|sub|] == sub;
    ContainsAt(s, sub, |pre|);
  }

  /** `toLowerCase` on one character: ASCII capitals and the Latin-1 capitals
      (U+00C0..U+00DE except the multiplication sign U+00D7) move down by 0x20;
      every other character is left as it is. */
  function LowerChar(c: char): (r: char)
    ensures r == c || ('A' <= c <= 'Z' && r as int == c as int + 32) || ('À' <= c <= 'Þ' && c != '×' && r as int == c as int + 32)
    ensures !('A' <= r <= 'Z')
  {
    if 'A' <= c <= 'Z' || ('À' <= c <= 'Þ' && c != '×') then
      (c as int + 32) as char
    else
      c
  }

  /** `s.toLowerCase()`, character by character. */
  function ToLower(s: string): (r: string)
    ensures |r| == |s|
    ensures forall i :: 0 <= i < |s| ==> r[i] == LowerChar(s[i])
  {
    seq(|s|, i requires 0 <= i < |s| => LowerChar(s[i]))
  }

  /** Lower-casing a second time changes nothing. */
  lemma ToLowerIdempotent(s: string)
    ensures ToLower(ToLower(s)) == ToLower(s)
  {
    forall i | 0 <= i < |s|
      ensures ToLower(ToLower(s))[i] == ToLower(s)[i]
    {
      var c := s[i];
      assert LowerChar(LowerChar(c)) == LowerChar(c);
    }
  }

  /** Index of the first occurrence of `c` in `s`, if any. */
  function FirstIndexOf(s: string, c: char): (r: Option<nat>)
    ensures r.None? <==> c !in s
    ensures r.Some? ==> r.value < |s| && s[r.value] == c && c !in s[..r.value]
  {
    if |s| == 0 then None
    else if s[0] == c then Some(0)
    else match FirstIndexOf(s[1..], c)
      case None => None
      case Some(k) =>
        assert s[1..][..k] == s[1..k + 1];
        Some(k + 1)
  }

  /** `s.replace(from, to)` with a one-character string pattern: only the
      first occurrence is replaced. */
  function ReplaceFirst(s: string, from: char, to: char): (r: string)
    ensures |r| == |s|
    ensures from !in s ==> r == s
    ensures from in s ==> var k := FirstIndexOf(s, from).value;
      r == s[..k] + [to] + s[k + 1..]
    ensures from in s ==> var k := FirstIndexOf(s, from).value;
      r[k] == to && forall i :: 0 <= i < |s| && i != k ==> r[i] == s[i]
  {
    match FirstIndexOf(s, from)
    case None => s
    case Some(k) => s[..k] + [to] + s[k + 1..]
  }
}
