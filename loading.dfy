/** The cleaning `initialize` applies to the key and proxy files before it registers the
    wallets (main.js:26-27 and 68-74), and the positional pairing of keys with proxies
    (main.js:79-83). Reading the files is not modelled: the text is a parameter, and a
    failed read of the proxy file is `None`. */
module Loading {
  import opened Common

  // ---------------------------------------------------------------- lines

  /** `text.split("\n")`. */
  function Split(text: string): (lines: seq<string>)
    ensures |lines| >= 1
    ensures forall i :: 0 <= i < |lines| ==> '\n' !in lines[i]
    decreases |text|
  {
    if text == [] then [[]]
    else
      var rest := Split(text[1..]);
      if text[0] == '\n' then [[]] + rest
      else [[text[0]] + rest[0]] + rest[1..]
  }

  /** `lines.join("\n")`. */
  function Join(lines: seq<string>): string
    requires |lines| >= 1
    decreases |lines|
  {
    if |lines| == 1 then lines[0] else lines[0] + "\n" + Join(lines[1..])
  }

  /** Splitting loses nothing: joining the lines back gives the text. */
  lemma {:induction false} JoinSplit(text: string)
    ensures Join(Split(text)) == text
    decreases |text|
  {
    if text != [] {
      var rest := Split(text[1..]);
      JoinSplit(text[1..]);
      if text[0] != '\n' && |rest| > 1 {
        assert Join(rest) == rest[0] + "\n" + Join(rest[1..]);
        assert ([[text[0]] + rest[0]] + rest[1..])[1..] == rest[1..];
      }
    }
  }

  /** Text without a line break ahead of the rest of the text extends its first line. */
  lemma {:induction false} SplitPrefix(line: string, text: string)
    requires '\n' !in line
    ensures Split(line + text) == [line + Split(text)[0]] + Split(text)[1..]
    decreases |line|
  {
    var lines := Split(text);
    if line == [] {
      assert line + text == text;
      assert line + lines[0] == lines[0];
      assert [line + lines[0]] + lines[1..] == lines;
    } else {
      assert (line + text)[0] == line[0];
      assert (line + text)[1..] == line[1..] + text;
      SplitPrefix(line[1..], text);
      var rest := Split(line[1..] + text);
      assert rest[0] == line[1..] + lines[0] && rest[1..] == lines[1..];
      assert [line[0]] + (line[1..] + lines[0]) == line + lines[0];
    }
  }

  /** Lines without line breaks come back from their join unchanged. */
  lemma {:induction false} SplitJoin(lines: seq<string>)
    requires |lines| >= 1
    requires forall i :: 0 <= i < |lines| ==> '\n' !in lines[i]
    ensures Split(Join(lines)) == lines
    decreases |lines|
  {
    if |lines| == 1 {
      SplitPrefix(lines[0], []);
      assert lines[0] + [] == lines[0];
    } else {
      SplitJoin(lines[1..]);
      var tail := "\n" + Join(lines[1..]);
      assert Split(tail) == [[]] + Split(Join(lines[1..]));
      SplitPrefix(lines[0], tail);
      assert lines[0] + "\n" + Join(lines[1..]) == lines[0] + tail;
      assert lines[0] + [] == lines[0];
    }
  }

  // ---------------------------------------------------------------- trimming

  /** The characters `String.prototype.trim` removes: white space and line terminators. */
  predicate IsSpace(c: char)
  {
    ('\t' <= c <= '\r') || c == ' ' || c == '\U{00A0}' || c == '\U{1680}' ||
    ('\U{2000}' <= c <= '\U{200A}') || c == '\U{2028}' || c == '\U{2029}' ||
    c == '\U{202F}' || c == '\U{205F}' || c == '\U{3000}' || c == '\U{FEFF}'
  }

  /** The string without its leading white space. */
  function TrimStart(s: string): (r: string)
    ensures |r| <= |s| && r == s[|s| - |r|..]
    ensures forall k :: 0 <= k < |s| - |r| ==> IsSpace(s[k])
    ensures r != [] ==> !IsSpace(r[0])
    decreases |s|
  {
    if s != [] && IsSpace(s[0]) then TrimStart(s[1..]) else s
  }

  /** The string without its trailing white space. */
  function TrimEnd(s: string): (r: string)
    ensures |r| <= |s| && r == s[..|r|]
    ensures forall k :: |r| <= k < |s| ==> IsSpace(s[k])
    ensures r != [] ==> !IsSpace(r[|r| - 1])
    decreases |s|
  {
    if s != [] && IsSpace(s[|s| - 1]) then TrimEnd(s[..|s| - 1]) else s
  }

  /** Whether every character of `s` is white space. */
  predicate AllSpace(s: string)
  {
    forall k :: 0 <= k < |s| ==> IsSpace(s[k])
  }

  /** `s.trim()`: the string without white space at either end. */
  function Trim(s: string): (r: string)
    ensures |r| <= |s|
    ensures r != [] ==> !IsSpace(r[0]) && !IsSpace(r[|r| - 1])
    ensures exists before, after {:trigger AllSpace(before), AllSpace(after)} ::
              s == before + r + after && AllSpace(before) && AllSpace(after)
  {
    var t := TrimStart(s);
    assert t != [] ==> s[|s| - |t|] == t[0];
    TrimParts(s);
    TrimEnd(t)
  }

  /** What `TrimStart` removes is leading white space. */
  lemma TrimStartParts(s: string)
    ensures var t := TrimStart(s);
      s == s[..|s| - |t|] + t && AllSpace(s[..|s| - |t|])
  {
    var t := TrimStart(s);
    var i := |s| - |t|;
    assert s == s[..i] + t by {
      assert t == s[i..];
    }
    forall k | 0 <= k < i
      ensures IsSpace(s[..i][k])
    {
      assert s[..i][k] == s[k];
    }
  }

  /** What `TrimEnd` removes is trailing white space. */
  lemma TrimEndParts(t: string)
    ensures var r := TrimEnd(t);
      t == r + t[|r|..] && AllSpace(t[|r|..])
  {
    var r := TrimEnd(t);
    assert t == r + t[|r|..] by {
      assert r == t[..|r|];
    }
    forall k | 0 <= k < |t| - |r|
      ensures IsSpace(t[|r|..][k])
    {
      assert t[|r|..][k] == t[|r| + k];
    }
  }

  /** Trimming both ends removes white space and nothing else. */
  lemma TrimParts(s: string)
    ensures exists before, after {:trigger AllSpace(before), AllSpace(after)} ::
              s == before + TrimEnd(TrimStart(s)) + after && AllSpace(before) && AllSpace(after)
  {
    var t := TrimStart(s);
    var r := TrimEnd(t);
    var before, after := s[..|s| - |t|], t[|r|..];
    assert s == before + t && AllSpace(before) by {
      TrimStartParts(s);
    }
    assert t == r + after && AllSpace(after) by {
      TrimEndParts(t);
    }
    SpaceAround(s, before, t, r, after);
  }

  /** A string that is white space, then `t`, where `t` is `r` then white space, is `r`
      with white space around it. */
  lemma SpaceAround(s: string, before: string, t: string, r: string, after: string)
    requires s == before + t && t == r + after && AllSpace(before) && AllSpace(after)
    ensures exists b, a {:trigger AllSpace(b), AllSpace(a)} :: s == b + r + a && AllSpace(b) && AllSpace(a)
  {
    assert s == before + r + after;
  }

  /** A trimmed line is empty exactly when the line is all white space. */
  lemma TrimEmptyIff(s: string)
    ensures Trim(s) == [] <==> forall k :: 0 <= k < |s| ==> IsSpace(s[k])
  {
    var t := TrimStart(s);
    if Trim(s) != [] {
      assert s[|s| - |t|] == t[0];
    }
  }

  /** Trimming twice trims nothing more. */
  lemma TrimIdempotent(s: string)
    ensures Trim(Trim(s)) == Trim(s)
  {
    var r := Trim(s);
    if r != [] {
      assert TrimStart(r) == r;
      assert TrimEnd(r) == r;
    }
  }

  // ---------------------------------------------------------------- cleaning

  /** `lines.map(line => line.trim())`. */
  function TrimAll(lines: seq<string>): (trimmed: seq<string>)
    ensures |trimmed| == |lines|
    ensures forall k :: 0 <= k < |lines| ==> trimmed[k] == Trim(lines[k])
    decreases |lines|
  {
    if lines == [] then [] else [Trim(lines[0])] + TrimAll(lines[1..])
  }

  /** `lines.filter(line => line.length > min)`. */
  function LongerThan(lines: seq<string>, min: nat): (kept: seq<string>)
    ensures |kept| <= |lines|
    ensures forall k :: 0 <= k < |kept| ==> |kept[k]| > min
    decreases |lines|
  {
    if lines == [] then []
    else (if |lines[0]| > min then [lines[0]] else []) + LongerThan(lines[1..], min)
  }

  /** The filter works line by line and keeps order and multiplicity: filtering two
      blocks of lines one after the other is filtering them together. */
  lemma {:induction false} LongerThanAppend(a: seq<string>, b: seq<string>, min: nat)
    ensures LongerThan(a + b, min) == LongerThan(a, min) + LongerThan(b, min)
    decreases |a|
  {
    if a == [] {
      assert a + b == b;
    } else {
      assert (a + b)[0] == a[0];
      assert (a + b)[1..] == a[1..] + b;
      LongerThanAppend(a[1..], b, min);
    }
  }

  /** Every line longer than `min` passes the filter. */
  lemma {:induction false} LongerThanKeeps(lines: seq<string>, min: nat, i: nat)
    requires i < |lines| && |lines[i]| > min
    ensures lines[i] in LongerThan(lines, min)
    decreases |lines|
  {
    var head := if |lines[0]| > min then [lines[0]] else [];
    var rest := LongerThan(lines[1..], min);
    assert LongerThan(lines, min) == head + rest;
    if i == 0 {
      assert LongerThan(lines, min)[0] == lines[0];
    } else {
      assert lines[1..][i - 1] == lines[i];
      LongerThanKeeps(lines[1..], min, i - 1);
      var k :| 0 <= k < |rest| && rest[k] == lines[i];
      assert LongerThan(lines, min)[|head| + k] == rest[k];
    }
  }

  /** Everything that passes the filter is one of the lines. */
  lemma {:induction false} LongerThanFrom(lines: seq<string>, min: nat, k: nat)
    requires k < |LongerThan(lines, min)|
    ensures LongerThan(lines, min)[k] in lines
    decreases |lines|
  {
    var head := if |lines[0]| > min then [lines[0]] else [];
    var rest := LongerThan(lines[1..], min);
    assert LongerThan(lines, min) == head + rest;
    if k >= |head| {
      LongerThanFrom(lines[1..], min, k - |head|);
      var tail := lines[1..];
      var i :| 0 <= i < |tail| && tail[i] == rest[k - |head|];
      assert tail[i] == lines[i + 1];
    }
  }

  /** `lines.map(line => line.trim()).filter(line => line.length > min)`. */
  function Cleaned(lines: seq<string>, min: nat): (kept: seq<string>)
    ensures |kept| <= |lines|
    ensures forall k :: 0 <= k < |kept| ==> |kept[k]| > min
  {
    LongerThan(TrimAll(lines), min)
  }

  /** Every line whose trimmed form is longer than `min` is kept, trimmed. */
  lemma CleanedKeepsLong(lines: seq<string>, min: nat, i: nat)
    requires i < |lines| && |Trim(lines[i])| > min
    ensures Trim(lines[i]) in Cleaned(lines, min)
  {
    LongerThanKeeps(TrimAll(lines), min, i);
  }

  /** Everything kept is the trimmed form of some line. */
  lemma CleanedFromLines(lines: seq<string>, min: nat, k: nat)
    requires k < |Cleaned(lines, min)|
    ensures exists i :: 0 <= i < |lines| && Trim(lines[i]) == Cleaned(lines, min)[k]
  {
    var trimmed := TrimAll(lines);
    LongerThanFrom(trimmed, min, k);
    var i :| 0 <= i < |trimmed| && trimmed[i] == Cleaned(lines, min)[k];
    assert Trim(lines[i]) == trimmed[i];
  }

  /** Everything kept is already trimmed. */
  lemma CleanedTrimmed(lines: seq<string>, min: nat, k: nat)
    requires k < |Cleaned(lines, min)|
    ensures Trim(Cleaned(lines, min)[k]) == Cleaned(lines, min)[k]
  {
    CleanedFromLines(lines, min, k);
    var i :| 0 <= i < |lines| && Trim(lines[i]) == Cleaned(lines, min)[k];
    TrimIdempotent(lines[i]);
  }

  /** The private keys of the key file: trimmed lines longer than 30 characters. */
  function KeyLines(text: string): (keys: seq<string>)
    ensures forall k :: 0 <= k < |keys| ==> |keys[k]| > 30
  {
    Cleaned(Split(text), 30)
  }

  /** `ProxyManager.initialize` (main.js:24-34): the lines of the proxy file that are not
      blank, untrimmed; a failed read gives no lines. */
  function ReadProxies(text: Option<string>): (lines: seq<string>)
    ensures text.None? ==> lines == []
    ensures forall k :: 0 <= k < |lines| ==> Trim(lines[k]) != []
  {
    match text
    case None => []
    case Some(t) => NonBlank(Split(t))
  }

  /** `lines.filter(line => line.trim() !== "")`. */
  function NonBlank(lines: seq<string>): (kept: seq<string>)
    ensures |kept| <= |lines|
    ensures forall k :: 0 <= k < |kept| ==> Trim(kept[k]) != []
    decreases |lines|
  {
    if lines == [] then []
    else (if Trim(lines[0]) != [] then [lines[0]] else []) + NonBlank(lines[1..])
  }

  /** The proxies `initialize` pairs with keys: the non-blank lines, trimmed. */
  function ValidProxies(text: Option<string>): (proxies: seq<string>)
    ensures text.None? ==> proxies == []
    ensures text.Some? ==> proxies == Cleaned(Split(text.value), 0)
    ensures forall k :: 0 <= k < |proxies| ==> proxies[k] != []
  {
    var proxies := Cleaned(ReadProxies(text), 0);
    if text.Some? then
      NonBlankRedundant(Split(text.value));
      proxies
    else
      proxies
  }

  /** The blank-line filter of `ProxyManager.initialize` changes nothing that the
      trim-and-filter of `initialize` would not do anyway. */
  lemma {:induction false} NonBlankRedundant(lines: seq<string>)
    ensures Cleaned(NonBlank(lines), 0) == Cleaned(lines, 0)
    decreases |lines|
  {
    if lines != [] {
      NonBlankRedundant(lines[1..]);
      var t := Trim(lines[0]);
      var rest := NonBlank(lines[1..]);
      assert TrimAll(lines)[1..] == TrimAll(lines[1..]);
      assert Cleaned(lines, 0) == (if |t| > 0 then [t] else []) + Cleaned(lines[1..], 0);
      if t != [] {
        var kept := [lines[0]] + rest;
        assert NonBlank(lines) == kept;
        assert kept[0] == lines[0] && kept[1..] == rest;
        assert TrimAll(kept)[1..] == TrimAll(rest);
        assert Cleaned(kept, 0) == [t] + Cleaned(rest, 0);
      } else {
        assert NonBlank(lines) == rest;
      }
    }
  }

  // ---------------------------------------------------------------- pairing

  /** `validProxies[i]`: the proxy at position `i`, or `undefined` past the end. */
  function ProxyAt(proxies: seq<string>, i: nat): (p: Option<string>)
    ensures p.Some? <==> i < |proxies|
    ensures i < |proxies| ==> p == Some(proxies[i])
  {
    if i < |proxies| then Some(proxies[i]) else None
  }

  /** A wallet registered by `initialize`: its address, its private key, the key's
      position among the cleaned keys and the proxy paired with that position. */
  datatype Registration = Registration(address: string, key: string, position: nat, proxy: Option<string>)

  /** The registrations made for the first `n` cleaned keys, in order: a key whose wallet
      cannot be built (`derive` gives `None`, `new Wallet` throws) is skipped, but still
      uses up the proxy at its position. */
  function Assign(keys: seq<string>, proxies: seq<string>, derive: string -> Option<string>, n: nat): (regs: seq<Registration>)
    requires n <= |keys|
    ensures |regs| <= n
    ensures forall j :: 0 <= j < |regs| ==>
      regs[j].position < n && regs[j].key == keys[regs[j].position] &&
      derive(regs[j].key) == Some(regs[j].address) &&
      regs[j].proxy == ProxyAt(proxies, regs[j].position)
    ensures forall j, j' :: 0 <= j < j' < |regs| ==> regs[j].position < regs[j'].position
    decreases n
  {
    if n == 0 then []
    else
      var before := Assign(keys, proxies, derive, n - 1);
      match derive(keys[n - 1])
      case None => before
      case Some(address) => before + [Registration(address, keys[n - 1], n - 1, ProxyAt(proxies, n - 1))]
  }

  /** One more key adds nothing when its wallet cannot be built; otherwise it adds its
      registration at the end, which becomes the latest one for its address. */
  lemma AssignStep(keys: seq<string>, proxies: seq<string>, derive: string -> Option<string>, i: nat)
    requires i < |keys|
    ensures var before := Assign(keys, proxies, derive, i);
      var after := Assign(keys, proxies, derive, i + 1);
      match derive(keys[i])
      case None => after == before
      case Some(address) =>
        var reg := Registration(address, keys[i], i, ProxyAt(proxies, i));
        after == before + [reg] && Addresses(after) == Addresses(before) + [address] &&
        Latest(after) == Latest(before)[address := reg]
  {
    var before := Assign(keys, proxies, derive, i);
    match derive(keys[i])
    case None =>
    case Some(address) =>
      var reg := Registration(address, keys[i], i, ProxyAt(proxies, i));
      assert (before + [reg])[..|before|] == before;
      assert Addresses(before + [reg]) == Addresses(before) + [address];
      LatestOfPrefix(before, [reg], |before|);
  }

  /** Every key whose wallet can be built is registered. */
  lemma {:induction false} AssignComplete(keys: seq<string>, proxies: seq<string>, derive: string -> Option<string>, n: nat, i: nat)
    requires i < n <= |keys| && derive(keys[i]).Some?
    ensures exists j :: 0 <= j < |Assign(keys, proxies, derive, n)| && Assign(keys, proxies, derive, n)[j].position == i
    decreases n
  {
    var regs := Assign(keys, proxies, derive, n);
    if i == n - 1 {
      assert regs[|regs| - 1].position == i;
    } else {
      AssignComplete(keys, proxies, derive, n - 1, i);
      var j :| 0 <= j < |Assign(keys, proxies, derive, n - 1)| && Assign(keys, proxies, derive, n - 1)[j].position == i;
      assert regs[j] == Assign(keys, proxies, derive, n - 1)[j];
    }
  }

  /** Nothing is registered exactly when no key gives a wallet, which is fatal. */
  lemma NoWalletsIff(keys: seq<string>, proxies: seq<string>, derive: string -> Option<string>)
    ensures Assign(keys, proxies, derive, |keys|) == [] <==>
      forall i :: 0 <= i < |keys| ==> derive(keys[i]).None?
  {
    var regs := Assign(keys, proxies, derive, |keys|);
    if exists i :: 0 <= i < |keys| && derive(keys[i]).Some? {
      var i :| 0 <= i < |keys| && derive(keys[i]).Some?;
      AssignComplete(keys, proxies, derive, |keys|, i);
    }
    if regs != [] {
      assert derive(keys[regs[0].position]).Some?;
    }
  }

  /** When every key gives a wallet, the wallet at position `i` gets the proxy at
      position `i`, and none when there are fewer proxies than that. */
  lemma {:induction false} AllValidPositional(keys: seq<string>, proxies: seq<string>, derive: string -> Option<string>, n: nat)
    requires n <= |keys|
    requires forall i :: 0 <= i < n ==> derive(keys[i]).Some?
    ensures |Assign(keys, proxies, derive, n)| == n
    ensures forall i :: 0 <= i < n ==>
      Assign(keys, proxies, derive, n)[i].position == i &&
      Assign(keys, proxies, derive, n)[i].proxy == ProxyAt(proxies, i)
    decreases n
  {
    if n > 0 {
      AllValidPositional(keys, proxies, derive, n - 1);
    }
  }

  /** Three wallets and one proxy: the first wallet gets the proxy, the other two none. */
  lemma ThreeWalletsOneProxy(keys: seq<string>, proxy: string, derive: string -> Option<string>)
    requires |keys| == 3 && forall i :: 0 <= i < 3 ==> derive(keys[i]).Some?
    ensures var regs := Assign(keys, [proxy], derive, 3);
      |regs| == 3 && regs[0].proxy == Some(proxy) && regs[1].proxy == None && regs[2].proxy == None
  {
    AllValidPositional(keys, [proxy], derive, 3);
  }

  /** The addresses of the registrations, in order (`this.wallets`). */
  function Addresses(regs: seq<Registration>): seq<string>
  {
    seq(|regs|, j requires 0 <= j < |regs| => regs[j].address)
  }

  /** The registration a keyed map holds for each address after the first `n`
      registrations were stored one by one, later ones overwriting earlier ones. */
  function LatestOf(regs: seq<Registration>, n: nat): map<string, Registration>
    requires n <= |regs|
    decreases n
  {
    if n == 0 then map[] else LatestOf(regs, n - 1)[regs[n - 1].address := regs[n - 1]]
  }

  /** The map after all the registrations were stored (`privateKeys`, the proxy map and
      `walletStats` are each filled this way). */
  function Latest(regs: seq<Registration>): map<string, Registration>
  {
    LatestOf(regs, |regs|)
  }

  /** Storing more registrations leaves the map of the first `n` as it was. */
  lemma {:induction false} LatestOfPrefix(regs: seq<Registration>, more: seq<Registration>, n: nat)
    requires n <= |regs|
    ensures LatestOf(regs + more, n) == LatestOf(regs, n)
    decreases n
  {
    if n > 0 {
      LatestOfPrefix(regs, more, n - 1);
      assert (regs + more)[n - 1] == regs[n - 1];
    }
  }

  lemma {:induction false} LatestOfKeys(regs: seq<Registration>, n: nat)
    requires n <= |regs|
    ensures LatestOf(regs, n).Keys == set j | 0 <= j < n :: regs[j].address
    decreases n
  {
    if n > 0 {
      LatestOfKeys(regs, n - 1);
      var all := set j | 0 <= j < n :: regs[j].address;
      var earlier := set j | 0 <= j < n - 1 :: regs[j].address;
      forall a | a in all
        ensures a in earlier + {regs[n - 1].address}
      {
        var j :| 0 <= j < n && regs[j].address == a;
      }
      assert all == earlier + {regs[n - 1].address};
    }
  }

  /** The map holds exactly the registered addresses. */
  lemma LatestKeys(regs: seq<Registration>)
    ensures Latest(regs).Keys == set j | 0 <= j < |regs| :: regs[j].address
  {
    LatestOfKeys(regs, |regs|);
  }

  lemma {:induction false} LatestOfEntries(regs: seq<Registration>, n: nat, a: string)
    requires n <= |regs| && a in LatestOf(regs, n)
    ensures LatestOf(regs, n)[a].address == a
    ensures exists j :: 0 <= j < n && regs[j] == LatestOf(regs, n)[a]
    decreases n
  {
    if a != regs[n - 1].address {
      LatestOfEntries(regs, n - 1, a);
    }
  }

  /** Each entry is a registration made for that address. */
  lemma LatestEntries(regs: seq<Registration>, a: string)
    requires a in Latest(regs)
    ensures Latest(regs)[a].address == a && Latest(regs)[a] in regs
  {
    LatestOfEntries(regs, |regs|, a);
  }

  lemma {:induction false} LatestOfIsLast(regs: seq<Registration>, n: nat, j: nat)
    requires j < n <= |regs|
    requires forall j' :: j < j' < n ==> regs[j'].address != regs[j].address
    ensures regs[j].address in LatestOf(regs, n)
    ensures LatestOf(regs, n)[regs[j].address] == regs[j]
    decreases n
  {
    if j < n - 1 {
      LatestOfIsLast(regs, n - 1, j);
    }
  }

  /** The map holds, for an address, the last registration made for it. */
  lemma LatestIsLast(regs: seq<Registration>, j: nat)
    requires j < |regs|
    requires forall j' :: j < j' < |regs| ==> regs[j'].address != regs[j].address
    ensures regs[j].address in Latest(regs)
    ensures Latest(regs)[regs[j].address] == regs[j]
  {
    LatestOfIsLast(regs, |regs|, j);
  }
}
