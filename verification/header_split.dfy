/**
 * The response-header table of the synchronous request in `easyhttp.c`:
 * each line of the list returned by the transport is split at its first
 * colon, the key being the text before it and the value the text starting
 * two characters after it; lines without a colon are skipped; the pairs go
 * into a Lua table in list order, so a later key overwrites an earlier one.
 */
module ResponseHeaders {
  import opened Wrappers

  /** `strchr(line, ':')`: the position of the first colon, if any. */
  function ColonIndex(s: string): (r: Option<nat>)
    ensures r.None? <==> ':' !in s
    ensures r.Some? ==> r.value < |s| && s[r.value] == ':' && ':' !in s[..r.value]
  {
    if s == [] then None
    else if s[0] == ':' then Some(0)
    else match ColonIndex(s[1..])
      case None => None
      case Some(i) => assert s[..i + 1] == [s[0]] + s[1..][..i]; Some(i + 1)
  }

  /**
   * A line as the split may read it: a C string (no NUL inside) in which
   * the first colon, if any, is followed by at least one more character,
   * so that `colon + 2` stays within the string or on its terminator.
   */
  predicate WellFormed(line: string) {
    '\0' !in line && (ColonIndex(line).Some? ==> ColonIndex(line).value + 1 < |line|)
  }

  /** The key and value of one line, or None for a line with no colon. */
  function SplitLine(line: string): (r: Option<(string, string)>)
    requires WellFormed(line)
    ensures r.None? <==> ':' !in line
    ensures r.Some? ==> ':' !in r.value.0
    ensures r.Some? ==> var i := |r.value.0|;
      i + 1 < |line| && line[..i] == r.value.0 && line[i] == ':' && line[i + 2..] == r.value.1
  {
    match ColonIndex(line)
    case None => None
    case Some(i) => Some((line[..i], line[i + 2..]))
  }

  /** The table after the lines have been processed in order. */
  function TableOf(lines: seq<string>): (t: map<string, string>)
    requires forall i :: 0 <= i < |lines| ==> WellFormed(lines[i])
    ensures forall k :: k in t ==> ':' !in k
    ensures lines == [] ==> t == map[]
    decreases |lines|
  {
    if lines == [] then map[]
    else
      var t := TableOf(lines[..|lines| - 1]);
      match SplitLine(lines[|lines| - 1])
      case None => t
      case Some(kv) => t[kv.0 := kv.1]
  }

  /** The loop over the `curl_slist` that fills the table with `lua_settable`. */
  method FillTable(lines: seq<string>) returns (t: map<string, string>)
    requires forall i :: 0 <= i < |lines| ==> WellFormed(lines[i])
    ensures t == TableOf(lines)
  {
    t := map[];
    var i := 0;
    while i < |lines|
      invariant 0 <= i <= |lines|
      invariant t == TableOf(lines[..i])
    {
      assert lines[..i + 1][..i] == lines[..i];
      var kv := SplitLine(lines[i]);
      if kv.Some? {
        t := t[kv.value.0 := kv.value.1];
      }
      i := i + 1;
    }
    assert lines[..i] == lines;
  }

  /** The key a line contributes, if it has a colon. */
  predicate HasKey(line: string, k: string)
    requires WellFormed(line)
  {
    SplitLine(line).Some? && SplitLine(line).value.0 == k
  }

  /** A key is in the table exactly when some line with a colon has that key; a line without one adds nothing. */
  lemma {:induction false} TableKeys(lines: seq<string>, k: string)
    requires forall i :: 0 <= i < |lines| ==> WellFormed(lines[i])
    ensures k in TableOf(lines) <==> exists i :: 0 <= i < |lines| && HasKey(lines[i], k)
    decreases |lines|
  {
    if lines != [] {
      var init := lines[..|lines| - 1];
      TableKeys(init, k);
      if exists i :: 0 <= i < |init| && HasKey(init[i], k) {
        var i :| 0 <= i < |init| && HasKey(init[i], k);
        assert HasKey(lines[i], k);
      }
      if exists i :: 0 <= i < |lines| && HasKey(lines[i], k) {
        var i :| 0 <= i < |lines| && HasKey(lines[i], k);
        if i < |init| { assert HasKey(init[i], k); }
      }
    }
  }

  /** The value stored under a key comes from the last line carrying that key. */
  lemma {:induction false} TableLastWins(lines: seq<string>, i: nat)
    requires forall j :: 0 <= j < |lines| ==> WellFormed(lines[j])
    requires i < |lines| && SplitLine(lines[i]).Some?
    requires forall j :: i < j < |lines| ==> !HasKey(lines[j], SplitLine(lines[i]).value.0)
    ensures var kv := SplitLine(lines[i]).value;
      kv.0 in TableOf(lines) && TableOf(lines)[kv.0] == kv.1
    decreases |lines|
  {
    if i < |lines| - 1 {
      var init := lines[..|lines| - 1];
      assert forall j :: i < j < |init| ==> init[j] == lines[j];
      TableLastWins(init, i);
    }
  }
}
