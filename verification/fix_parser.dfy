/**
 * The Assignment 9 FIX 4.2 tag=value parser: the message is stripped, SOH field
 * separators are turned into the chosen delimiter, the text is split at the
 * delimiter, and every field holding '=' contributes its stripped tag and value,
 * a later duplicate tag overwriting an earlier one.
 */
module FixParser {
  import opened Wrappers
  import opened Text

  /** The FIX field separator SOH (0x01). */
  const Soh: char := 1 as char

  /** `str.replace(a, b)` for single characters. */
  function ReplaceChar(s: string, a: char, b: char): (r: string)
    ensures |r| == |s|
    ensures forall i :: 0 <= i < |s| ==> r[i] == (if s[i] == a then b else s[i])
  {
    seq(|s|, i requires 0 <= i < |s| => if s[i] == a then b else s[i])
  }

  /** `str.split(d)` with an explicit one-character separator: empty fields are kept, so there is always at least one. */
  function Split(s: string, d: char): (r: seq<string>)
    ensures |r| >= 1
    decreases |s|
  {
    if |s| == 0 then [""]
    else if s[0] == d then [""] + Split(s[1..], d)
    else
      var rest := Split(s[1..], d);
      [[s[0]] + rest[0]] + rest[1..]
  }

  /** `d.join(fields)`. */
  function Join(fields: seq<string>, d: char): string
    requires |fields| >= 1
    decreases |fields|
  {
    if |fields| == 1 then fields[0] else fields[0] + [d] + Join(fields[1..], d)
  }

  /** No field holds the separator. */
  predicate Separated(fields: seq<string>, d: char) {
    forall i :: 0 <= i < |fields| ==> d !in fields[i]
  }

  /** Splitting loses nothing: joining the fields back gives the text, and no field holds the separator. */
  lemma {:induction false} SplitJoin(s: string, d: char)
    ensures Join(Split(s, d), d) == s
    ensures Separated(Split(s, d), d)
    decreases |s|
  {
    if |s| > 0 {
      SplitJoin(s[1..], d);
      var rest := Split(s[1..], d);
      if s[0] == d {
        assert ([""] + rest)[1..] == rest;
      } else {
        var r := [[s[0]] + rest[0]] + rest[1..];
        assert r[1..] == rest[1..];
        if |rest| == 1 {
          assert Join(r, d) == [s[0]] + rest[0];
        } else {
          assert Join(rest, d) == rest[0] + [d] + Join(rest[1..], d);
        }
        assert s == [s[0]] + s[1..];
        assert forall i :: 1 <= i < |r| ==> r[i] == rest[i];
      }
    }
  }

  /** And splitting a join of separator-free fields gives the fields back. */
  lemma {:induction false} JoinSplit(fields: seq<string>, d: char)
    requires |fields| >= 1 && Separated(fields, d)
    ensures Split(Join(fields, d), d) == fields
    decreases |fields|, |fields[0]|
  {
    var f := fields[0];
    if |f| == 0 {
      if |fields| > 1 {
        JoinSplit(fields[1..], d);
        assert Join(fields, d) == [d] + Join(fields[1..], d);
        assert ([d] + Join(fields[1..], d))[1..] == Join(fields[1..], d);
        assert [""] + fields[1..] == fields;
      }
    } else {
      var shorter := [f[1..]] + fields[1..];
      assert shorter[1..] == fields[1..];
      assert Separated(shorter, d) by {
        assert forall i :: 1 <= i < |shorter| ==> shorter[i] == fields[i];
        assert d !in f[1..] by {
          assert forall i :: 0 <= i < |f[1..]| ==> f[1..][i] == f[i + 1];
        }
      }
      JoinSplit(shorter, d);
      var j := Join(fields, d);
      assert j == [f[0]] + Join(shorter, d) by {
        assert f == [f[0]] + f[1..];
        if |fields| > 1 {
          assert Join(shorter, d) == f[1..] + [d] + Join(fields[1..], d);
        }
      }
      assert j[0] == f[0] && f[0] != d;
      assert j[1..] == Join(shorter, d);
      assert f == [f[0]] + f[1..];
      assert fields == [f] + fields[1..];
      assert [[f[0]] + f[1..]] + fields[1..] == fields;
    }
  }

  /** Index of the first '=' in a field, if any. */
  function FirstEquals(f: string): (r: Option<nat>)
    ensures r.None? <==> '=' !in f
    ensures r.Some? ==> r.value < |f| && f[r.value] == '=' && '=' !in f[..r.value]
  {
    if |f| == 0 then None
    else if f[0] == '=' then Some(0)
    else match FirstEquals(f[1..])
      case None => None
      case Some(k) =>
        assert f[..k + 1] == [f[0]] + f[1..][..k];
        Some(k + 1)
  }

  /** What a field contributes: its stripped tag and value when it holds '=', split at the first one. */
  function Entry(f: string): (r: Option<(string, string)>)
    ensures r.None? <==> '=' !in f
  {
    match FirstEquals(f)
    case None => None
    case Some(i) => Some((Strip(f[..i]), Strip(f[i + 1..])))
  }

  /** The loop over the fields: each entry is written into the dict in turn. */
  function Fill(fields: seq<string>): map<string, string>
    decreases |fields|
  {
    if |fields| == 0 then map[]
    else
      var parsed := Fill(fields[..|fields| - 1]);
      match Entry(fields[|fields| - 1])
      case None => parsed
      case Some(e) => parsed[e.0 := e.1]
  }

  /** `FixParser.parse(msg, delimiter)` for a one-character delimiter. */
  function Parse(msg: string, delim: char): map<string, string> {
    if |msg| == 0 then map[]
    else Fill(Split(ReplaceChar(Strip(msg), Soh, delim), delim))
  }

  /** Reference reading of a tag: the value of the last field that carries it. */
  function LastValue(fields: seq<string>, tag: string): Option<string>
    decreases |fields|
  {
    if |fields| == 0 then None
    else
      var e := Entry(fields[|fields| - 1]);
      if e.Some? && e.value.0 == tag then Some(e.value.1) else LastValue(fields[..|fields| - 1], tag)
  }

  /**
   * The parsed dict holds exactly the tags of fields containing '=', each with the
   * stripped value of the last such field: fields without '=' are skipped, and a
   * later duplicate overwrites an earlier one.
   */
  lemma {:induction false} FillIsLastValue(fields: seq<string>, tag: string)
    ensures tag in Fill(fields) <==> LastValue(fields, tag).Some?
    ensures tag in Fill(fields) ==> Some(Fill(fields)[tag]) == LastValue(fields, tag)
    decreases |fields|
  {
    if |fields| > 0 {
      FillIsLastValue(fields[..|fields| - 1], tag);
    }
  }

  /** Every key comes from a field that contains '=' and whose stripped text before the first '=' is the key. */
  lemma {:induction false} KeysComeFromFields(fields: seq<string>, tag: string)
    requires tag in Fill(fields)
    ensures exists i :: 0 <= i < |fields| && Entry(fields[i]).Some? && Entry(fields[i]).value.0 == tag
    decreases |fields|
  {
    var last := |fields| - 1;
    var e := Entry(fields[last]);
    if e.Some? && e.value.0 == tag {
      assert Entry(fields[last]).Some? && Entry(fields[last]).value.0 == tag;
    } else {
      assert tag in Fill(fields[..last]);
      KeysComeFromFields(fields[..last], tag);
      var i :| 0 <= i < last && Entry(fields[..last][i]).Some? && Entry(fields[..last][i]).value.0 == tag;
      assert fields[..last][i] == fields[i];
    }
  }

  /** An empty message parses to the empty dict. */
  lemma EmptyMessage(delim: char)
    ensures Parse("", delim) == map[]
  {
  }

  /**
   * SOH and the chosen delimiter separate fields alike: replacing SOH by the delimiter
   * beforehand does not change the result, for a delimiter that is not whitespace.
   */
  lemma SohActsAsDelimiter(msg: string, delim: char)
    requires !IsSpace(delim)
    ensures Parse(msg, delim) == Parse(ReplaceChar(msg, Soh, delim), delim)
  {
    if |msg| > 0 {
      StripReplace(msg, delim);
      ReplaceTwice(Strip(msg), delim);
    }
  }

  lemma ReplaceTwice(s: string, delim: char)
    ensures ReplaceChar(ReplaceChar(s, Soh, delim), Soh, delim) == ReplaceChar(s, Soh, delim)
  {
  }

  /** Neither SOH nor the delimiter is whitespace, so replacing one by the other commutes with stripping. */
  lemma StripReplace(msg: string, delim: char)
    requires !IsSpace(delim)
    ensures Strip(ReplaceChar(msg, Soh, delim)) == ReplaceChar(Strip(msg), Soh, delim)
  {
    LStripReplace(msg, delim);
    RStripReplace(LStrip(msg), delim);
  }

  lemma {:induction false} LStripReplace(s: string, delim: char)
    requires !IsSpace(delim)
    ensures LStrip(ReplaceChar(s, Soh, delim)) == ReplaceChar(LStrip(s), Soh, delim)
    decreases |s|
  {
    var t := ReplaceChar(s, Soh, delim);
    if |s| > 0 {
      assert IsSpace(t[0]) <==> IsSpace(s[0]);
      if IsSpace(s[0]) {
        assert t[1..] == ReplaceChar(s[1..], Soh, delim);
        LStripReplace(s[1..], delim);
      }
    }
  }

  lemma {:induction false} RStripReplace(s: string, delim: char)
    requires !IsSpace(delim)
    ensures RStrip(ReplaceChar(s, Soh, delim)) == ReplaceChar(RStrip(s), Soh, delim)
    decreases |s|
  {
    var t := ReplaceChar(s, Soh, delim);
    if |s| > 0 {
      var n := |s| - 1;
      assert IsSpace(t[n]) <==> IsSpace(s[n]);
      if IsSpace(s[n]) {
        assert t[..n] == ReplaceChar(s[..n], Soh, delim);
        RStripReplace(s[..n], delim);
      }
    }
  }

  lemma {:induction false} FirstEqualsAt(tag: string, value: string)
    requires '=' !in tag
    ensures FirstEquals(tag + "=" + value) == Some(|tag|)
    decreases |tag|
  {
    var f := tag + "=" + value;
    if |tag| > 0 {
      assert f[1..] == tag[1..] + "=" + value;
      assert '=' !in tag[1..] by {
        assert forall i :: 0 <= i < |tag[1..]| ==> tag[1..][i] == tag[i + 1];
      }
      FirstEqualsAt(tag[1..], value);
    }
  }

  /** A field splits at its first '=': the tag is the stripped text before it, and the value keeps any later '='. */
  lemma EntryOfField(tag: string, value: string)
    requires '=' !in tag
    ensures Entry(tag + "=" + value) == Some((Strip(tag), Strip(value)))
  {
    FirstEqualsAt(tag, value);
    var f := tag + "=" + value;
    assert f[..|tag|] == tag && f[|tag| + 1..] == value;
  }
}
