/** Option parsing (lib/fuse_opt.c) without templates and callback: all -o groups are gathered into
    one escaped list, and the other arguments stay in order. */
module Options {
  import opened Wrappers

  const NUL: char := '\U{0000}'

  /** What the C functions can see of a string. */
  predicate CString(s: string) {
    NUL !in s
  }

  predicate CStrings(l: seq<string>) {
    forall i | 0 <= i < |l| :: CString(l[i])
  }

  // ---------- escaping ----------

  function Escape(s: string): string {
    if s == "" then "" else (if s[0] == ',' || s[0] == '\\' then ['\\', s[0]] else [s[0]]) + Escape(s[1..])
  }

  /** `add_opt_common` with `esc` set: the comma depends on the length of what is there. */
  function AddedOpt(opts: Option<string>, opt: string): string {
    if opts.GetOr("") == "" then Escape(opt) else opts.value + "," + Escape(opt)
  }

  function AddAll(opts: Option<string>, l: seq<string>): Option<string>
    decreases |l|
  {
    if l == [] then opts else AddAll(Some(AddedOpt(opts, l[0])), l[1..])
  }

  // ---------- unescaping ----------

  /** Three octal digits that fit into a byte. */
  predicate OctalAt(s: string, i: nat) {
    i + 2 < |s| && '0' <= s[i] <= '3' && '0' <= s[i + 1] <= '7' && '0' <= s[i + 2] <= '7'
  }

  function OctalChar(a: char, b: char, c: char): char
    requires '0' <= a <= '3' && '0' <= b <= '7' && '0' <= c <= '7'
  {
    ((a - '0') as int * 64 + (b - '0') as int * 8 + (c - '0') as int) as char
  }

  /** The part of a token that `process_gopt` sees: an octal \000 ends it. */
  function Cut(s: string): string {
    if s == "" || s[0] == NUL then "" else [s[0]] + Cut(s[1..])
  }

  /** The options of a group that starts with `s`, when `cur` has already been unescaped. */
  function Split(s: string, cur: string): seq<string>
    decreases |s|
  {
    if s == "" then [Cut(cur)]
    else if s[0] == ',' then [Cut(cur)] + Split(s[1..], "")
    else if s[0] == '\\' && |s| > 1 then
      if OctalAt(s, 1) then Split(s[4..], cur + [OctalChar(s[1], s[2], s[3])]) else Split(s[2..], cur + [s[1]])
    else Split(s[1..], cur + [s[0]])
  }

  function Decode(s: string): seq<string> {
    Split(s, "")
  }

  lemma {:induction false} CutCString(s: string)
    ensures CString(Cut(s)) && Cut(s) <= s && (CString(s) ==> Cut(s) == s)
  {
    if s != "" && s[0] != NUL {
      CutCString(s[1..]);
    }
  }

  lemma {:induction false} SplitCStrings(s: string, cur: string)
    ensures CStrings(Split(s, cur)) && Split(s, cur) != []
    decreases |s|
  {
    CutCString(cur);
    if s == "" {
    } else if s[0] == ',' {
      SplitCStrings(s[1..], "");
    } else if s[0] == '\\' && |s| > 1 {
      if OctalAt(s, 1) {
        SplitCStrings(s[4..], cur + [OctalChar(s[1], s[2], s[3])]);
      } else {
        SplitCStrings(s[2..], cur + [s[1]]);
      }
    } else {
      SplitCStrings(s[1..], cur + [s[0]]);
    }
  }

  /** The three octal digits of a byte */
  function Octal(b: nat): string
    requires b < 256
  {
    ['0' + (b / 64) as char, '0' + (b / 8 % 8) as char, '0' + (b % 8) as char]
  }

  /** Whatever byte is written in octal is read as that byte, and goes on as part of the option. */
  lemma OctalRoundTrip(b: nat, rest: string, cur: string)
    requires b < 256
    ensures var s := ['\\'] + Octal(b) + rest;
      && OctalAt(s, 1) && OctalChar(s[1], s[2], s[3]) == b as char
      && Split(s, cur) == Split(rest, cur + [b as char])
  {
    var s := ['\\'] + Octal(b) + rest;
    assert s[4..] == rest;
  }

  lemma SplitFront(c: char, tail: string, cur: string)
    ensures c == ',' ==> Split([c] + tail, cur) == [Cut(cur)] + Split(tail, "")
    ensures c == ',' || c == '\\' ==> Split(['\\', c] + tail, cur) == Split(tail, cur + [c])
    ensures c != ',' && c != '\\' ==> Split([c] + tail, cur) == Split(tail, cur + [c])
  {
    assert ([c] + tail)[1..] == tail;
    assert (['\\', c] + tail)[2..] == tail;
  }

  lemma EscapeFront(t: string, rest: string)
    requires t != ""
    ensures Escape(t) + rest == (if t[0] == ',' || t[0] == '\\' then ['\\', t[0]] else [t[0]]) + (Escape(t[1..]) + rest)
  {
  }

  lemma EscapeOne(t: string, rest: string, cur: string)
    requires t != ""
    ensures Split(Escape(t) + rest, cur) == Split(Escape(t[1..]) + rest, cur + [t[0]])
    ensures (cur + [t[0]]) + t[1..] == cur + t
  {
    hide Split, Escape;
    EscapeFront(t, rest);
    SplitFront(t[0], Escape(t[1..]) + rest, cur);
  }

  /** Unescaping reads an escaped option back, whatever follows. */
  lemma {:induction false} SplitEscape(t: string, rest: string, cur: string)
    ensures Split(Escape(t) + rest, cur) == Split(rest, cur + t)
    decreases |t|
  {
    if t == "" {
      assert Escape(t) + rest == rest && cur + t == cur;
    } else {
      hide Split, Escape;
      EscapeOne(t, rest, cur);
      SplitEscape(t[1..], rest, cur + [t[0]]);
    }
  }

  // ---------- what a list of options becomes ----------

  function Tail(l: seq<string>): string
    decreases |l|
  {
    if l == [] then "" else "," + Escape(l[0]) + Tail(l[1..])
  }

  lemma {:induction false} AddAllTail(v: string, l: seq<string>)
    requires v != ""
    ensures AddAll(Some(v), l) == Some(v + Tail(l))
    decreases |l|
  {
    if l == [] {
      assert v + "" == v;
    } else {
      AddAllTail(v + "," + Escape(l[0]), l[1..]);
      Associate(v, Escape(l[0]), Tail(l[1..]));
    }
  }

  lemma Associate(a: string, b: string, c: string)
    ensures (a + "," + b) + c == a + ("," + b + c) && "," + b + c == "," + (b + c)
  {
  }

  lemma {:induction false} SplitTail(l: seq<string>, cur: string)
    requires CStrings(l)
    ensures Split(Tail(l), cur) == [Cut(cur)] + l
    decreases |l|
  {
    if l != [] {
      var rest := Escape(l[0]) + Tail(l[1..]);
      Associate("", Escape(l[0]), Tail(l[1..]));
      assert Tail(l) == [','] + rest;
      SplitTail(l[1..], l[0]);
      hide Split, Escape;
      SplitFront(',', rest, cur);
      SplitEscape(l[0], Tail(l[1..]), "");
      assert "" + l[0] == l[0];
      CutCString(l[0]);
      assert [l[0]] + l[1..] == l;
    }
  }

  /** Leading empty options vanish, unless nothing else is there. */
  function Trim(l: seq<string>): seq<string>
    decreases |l|
  {
    if |l| > 1 && l[0] == "" then Trim(l[1..]) else l
  }

  lemma {:induction false} TrimSame(l: seq<string>)
    ensures |Trim(l)| <= |l| && (|Trim(l)| > 1 ==> Trim(l)[0] != "") && (CStrings(l) ==> CStrings(Trim(l)))
    ensures Trim(l) == l <==> |l| <= 1 || l[0] != ""
    ensures l != [] ==>
      Trim(l) != [] && AddAll(None, Trim(l)) == AddAll(None, l) && AddAll(Some(""), l) == AddAll(None, l)
    decreases |l|
  {
    if |l| > 1 && l[0] == "" {
      TrimSame(l[1..]);
      assert AddedOpt(None, l[0]) == "";
    }
  }

  /** The list that `add_opt` builds is read back as the options that were added, without the
      leading empty ones. */
  lemma DecodeAddAll(l: seq<string>)
    requires l != [] && CStrings(l)
    ensures AddAll(None, l).Some? && Decode(AddAll(None, l).value) == Trim(l)
  {
    TrimSame(l);
    var t := Trim(l);
    var v := Escape(t[0]);
    assert t == [t[0]] + t[1..];
    CutCString(t[0]);
    if v == "" {
      assert t[0] == "" && t == [""] && t[1..] == [];
    } else {
      AddAllTail(v, t[1..]);
      SplitEscape(t[0], Tail(t[1..]), "");
      assert "" + t[0] == t[0];
      SplitTail(t[1..], t[0]);
    }
  }

  /** Escaping and unescaping are inverse on exactly the lists that do not start with an empty
      option followed by another one. */
  lemma RoundTrip(l: seq<string>)
    requires l != [] && CStrings(l)
    ensures AddAll(None, l).Some? && (Decode(AddAll(None, l).value) == l <==> |l| == 1 || l[0] != "")
  {
    DecodeAddAll(l);
    TrimSame(l);
  }

  /** An empty option in front of another is lost. */
  lemma LeadingEmptyVanishes()
    ensures CStrings(["", "a"]) && AddAll(None, ["", "a"]) == Some("a") && Decode("a") == ["a"]
  {
    var l := ["", "a"];
    assert l[1..] == ["a"] && CStrings(l);
    DecodeAddAll(l);
    assert Escape("a") == "a" by {
      assert "a"[1..] == "";
    }
    assert AddedOpt(None, "") == "" && AddedOpt(Some(""), "a") == "a";
    assert AddAll(Some("a"), []) == Some("a") && AddAll(Some(""), ["a"]) == Some("a");
  }

  /** Parsing a gathered list again gathers the same list. */
  lemma Gathered(l: seq<string>)
    requires l != [] && CStrings(l)
    ensures AddAll(None, l).Some? && AddAll(None, Decode(AddAll(None, l).value)) == AddAll(None, l)
  {
    DecodeAddAll(l);
    TrimSame(l);
  }

  // ---------- the arguments ----------

  predicate IsGroup(arg: string) {
    |arg| >= 2 && arg[0] == '-' && arg[1] == 'o'
  }

  /** The options of all -o groups before a separator. */
  function Options(args: seq<string>): seq<string>
    decreases |args|
  {
    if args == [] || args[0] == "--" then []
    else if !IsGroup(args[0]) then Options(args[1..])
    else if |args[0]| > 2 then Decode(args[0][2..]) + Options(args[1..])
    else if |args| < 2 then []
    else Decode(args[1]) + Options(args[2..])
  }

  /** The other arguments. */
  function Others(args: seq<string>): seq<string>
    decreases |args|
  {
    if args == [] then []
    else if args[0] == "--" then args
    else if !IsGroup(args[0]) then [args[0]] + Others(args[1..])
    else if |args[0]| > 2 then Others(args[1..])
    else if |args| < 2 then []
    else Others(args[2..])
  }

  /** A last -o without its group: the one error. */
  predicate Missing(args: seq<string>)
    decreases |args|
  {
    args != [] && args[0] != "--" &&
    if !IsGroup(args[0]) || |args[0]| > 2 then Missing(args[1..])
    else |args| < 2 || Missing(args[2..])
  }

  /** The first separator is the last argument. */
  predicate EndsAtSeparator(args: seq<string>)
    decreases |args|
  {
    args != [] &&
    if args[0] == "--" then |args| == 1
    else if !IsGroup(args[0]) || |args[0]| > 2 then EndsAtSeparator(args[1..])
    else |args| >= 2 && EndsAtSeparator(args[2..])
  }

  /** The arguments after the first one as `fuse_opt_parse` leaves them. A trailing separator is
      dropped only if no options were gathered: inserting them shifts the count it is compared to. */
  function Parsed(args: seq<string>): seq<string> {
    var others := Others(args);
    if Options(args) != [] then ["-o", AddAll(None, Options(args)).GetOr("")] + others
    else if EndsAtSeparator(args) && others != [] then others[..|others| - 1]
    else others
  }

  /** The other arguments hold no group and parse as themselves, also when a trailing separator is
      taken away. */
  lemma {:induction false} OthersParse(args: seq<string>)
    requires !Missing(args)
    ensures var k := Others(args); Options(k) == [] && Others(k) == k && !Missing(k)
    ensures EndsAtSeparator(Others(args)) == EndsAtSeparator(args)
    ensures EndsAtSeparator(args) ==> Others(args) != []
    ensures EndsAtSeparator(args) ==>
      var k := Others(args)[..|Others(args)| - 1];
      Options(k) == [] && Others(k) == k && !Missing(k) && !EndsAtSeparator(k)
    decreases |args|
  {
    if args == [] {
    } else if args[0] == "--" {
      assert args[..0] == [];
    } else if !IsGroup(args[0]) {
      OthersParse(args[1..]);
      var k := Others(args);
      assert k[1..] == Others(args[1..]);
      if EndsAtSeparator(args) {
        assert k[..|k| - 1][1..] == k[1..][..|k| - 2];
      }
    } else if |args[0]| > 2 {
      OthersParse(args[1..]);
    } else {
      OthersParse(args[2..]);
    }
  }

  lemma {:induction false} OptionsCStrings(args: seq<string>)
    ensures CStrings(Options(args))
    decreases |args|
  {
    if args != [] && args[0] != "--" {
      if !IsGroup(args[0]) {
        OptionsCStrings(args[1..]);
      } else if |args[0]| > 2 {
        SplitCStrings(args[0][2..], "");
        OptionsCStrings(args[1..]);
      } else if |args| >= 2 {
        SplitCStrings(args[1], "");
        OptionsCStrings(args[2..]);
      }
    }
  }

  /** A second parse changes nothing. */
  lemma ParseTwice(args: seq<string>)
    requires !Missing(args)
    ensures !Missing(Parsed(args)) && Parsed(Parsed(args)) == Parsed(args)
  {
    OthersParse(args);
    var others, options := Others(args), Options(args);
    if options != [] {
      OptionsCStrings(args);
      DecodeAddAll(options);
      TrimSame(options);
      var p := Parsed(args);
      assert p[2..] == others && p[1] == AddAll(None, options).value;
      assert Options(p) == Decode(p[1]) + Options(others) == Trim(options);
      assert Others(p) == Others(p[2..]) == others;
    }
  }

  /** A separator at the end is meant to be removed; it stays if and only if options were gathered. */
  lemma TrailingSeparator(args: seq<string>)
    requires !Missing(args) && EndsAtSeparator(args)
    ensures EndsAtSeparator(Parsed(args)) <==> Options(args) != []
  {
    OthersParse(args);
    if Options(args) != [] {
      assert Parsed(args)[2..] == Others(args);
    }
  }

  lemma SeparatorStaysBehindOptions()
    ensures EndsAtSeparator(["-oa", "--"]) && EndsAtSeparator(Parsed(["-oa", "--"]))
  {
    var args := ["-oa", "--"];
    assert args[1..] == ["--"] && args[0][2..] == "a";
    assert Options(args) == Decode("a") + Options(["--"]);
    SplitCStrings("a", "");
    TrailingSeparator(args);
  }

  // ---------- the code ----------

  lemma {:induction false} AddAllSnoc(opts: Option<string>, l: seq<string>, x: string)
    ensures AddAll(opts, l + [x]) == Some(AddedOpt(AddAll(opts, l), x))
    decreases |l|
  {
    if l == [] {
      assert l + [x] == [x];
    } else {
      assert (l + [x])[1..] == l[1..] + [x];
      AddAllSnoc(Some(AddedOpt(opts, l[0])), l[1..], x);
    }
  }

  lemma {:induction false} AddAllCat(opts: Option<string>, l: seq<string>, m: seq<string>)
    ensures AddAll(opts, l + m) == AddAll(AddAll(opts, l), m)
    decreases |l|
  {
    if l == [] {
      assert l + m == m;
    } else {
      assert (l + m)[1..] == l[1..] + m;
      AddAllCat(Some(AddedOpt(opts, l[0])), l[1..], m);
    }
  }

  lemma {:induction false} AddAllSome(opts: Option<string>, l: seq<string>)
    ensures AddAll(opts, l).Some? <==> opts.Some? || l != []
    decreases |l|
  {
    if l != [] {
      AddAllSome(Some(AddedOpt(opts, l[0])), l[1..]);
    }
  }

  lemma {:induction false} EscapeCat(a: string, c: char)
    ensures Escape(a + [c]) == Escape(a) + Escape([c])
  {
    if a == "" {
      assert a + [c] == [c];
    } else {
      assert (a + [c])[1..] == a[1..] + [c];
      EscapeCat(a[1..], c);
    }
  }

  lemma EscapeNext(s: string, i: nat)
    requires i < |s|
    ensures s[..i + 1] == s[..i] + [s[i]]
    ensures Escape(s[..i + 1]) == Escape(s[..i]) + if s[i] == ',' || s[i] == '\\' then ['\\', s[i]] else [s[i]]
  {
    assert s[..i + 1] == s[..i] + [s[i]];
    EscapeCat(s[..i], s[i]);
  }

  /** `add_opt_common`: the new list is written into a buffer of the size that was reserved for it. */
  method AddOptCommon(opts: Option<string>, opt: string, esc: bool) returns (r: string)
    ensures r == if esc then AddedOpt(opts, opt) else if opts.GetOr("") == "" then opt else opts.value + "," + opt
  {
    hide Escape;
    var oldlen := |opts.GetOr("")|;
    var buf := new char[oldlen + 1 + |opt| * 2 + 1];
    var d := PutString(buf, 0, opts.GetOr(""), false);  // realloc keeps the old list
    if oldlen > 0 {
      d := PutChar(buf, d, ',');
    }
    ghost var front := if oldlen > 0 then opts.GetOr("") + "," else "";
    assert buf[..d] == front;
    d := PutString(buf, d, opt, esc);
    assert "" + (if esc then Escape(opt) else opt) == if esc then Escape(opt) else opt;
    r := buf[..d];
    d := PutChar(buf, d, NUL);
  }

  method PutString(buf: array<char>, d: nat, opt: string, esc: bool) returns (d': nat)
    requires d + (if esc then 2 else 1) * |opt| < buf.Length
    modifies buf
    ensures d' <= d + (if esc then 2 else 1) * |opt| && buf[..d'] == old(buf[..d]) + if esc then Escape(opt) else opt
  {
    ghost var start := buf[..d];
    d' := d;
    assert Escape("") == "";
    hide Escape;
    for i := 0 to |opt|
      invariant d <= d' <= d + (if esc then 2 else 1) * i
      invariant buf[..d'] == start + if esc then Escape(opt[..i]) else opt[..i]
    {
      EscapeNext(opt, i);
      if esc && (opt[i] == ',' || opt[i] == '\\') {
        d' := PutChar(buf, d', '\\');
      }
      d' := PutChar(buf, d', opt[i]);
    }
    assert opt[..|opt|] == opt;
  }

  /** `*d++ = c` */
  method PutChar(buf: array<char>, d: nat, c: char) returns (d': nat)
    requires d < buf.Length
    modifies buf
    ensures d' == d + 1 && buf[..d'] == old(buf[..d]) + [c]
    ensures forall k | d' <= k < buf.Length :: buf[k] == old(buf[k])
  {
    buf[d] := c;
    return d + 1;
  }

  /** A C string ends at its first NUL. */
  lemma {:induction false} CutAt(s: string, d: nat)
    requires d < |s| && s[d] == NUL
    ensures Cut(s) == Cut(s[..d])
  {
    if d > 0 && s[0] != NUL {
      CutAt(s[1..], d - 1);
      assert s[1..][..d - 1] == s[..d][1..];
    }
  }

  lemma StartDecode(text: string, opts: Option<string>)
    ensures Decode(text) == Split(text[0..], "") && AddAll(opts, []) == opts
  {
    assert text[0..] == text;
  }

  lemma NulOnlyAtEnd(text: string, s: nat)
    requires CString(text) && s <= |text| && (s < |text| ==> text[s] == NUL)
    ensures s == |text|
  {
  }

  lemma SplitToken(text: string, s: nat, cur: string)
    requires s <= |text| && (s < |text| ==> text[s] == ',')
    ensures Split(text[s..], cur) == [Cut(cur)] + if s == |text| then [] else Split(text[s + 1..], "")
  {
    assert s < |text| ==> text[s..][1..] == text[s + 1..];
  }

  /** What the loop does with a character that ends no option. */
  lemma SplitChar(text: string, s: nat, cur: string)
    requires s < |text| && text[s] != ',' && CString(text)
    ensures text[s] != '\\' || s + 1 == |text| ==> Split(text[s..], cur) == Split(text[s + 1..], cur + [text[s]])
    ensures text[s] == '\\' && s + 1 < |text| ==> text[s + 1] != NUL
    ensures text[s] == '\\' && s + 1 < |text| ==>
      if OctalAt(text, s + 1)
      then Split(text[s..], cur) == Split(text[s + 4..], cur + [OctalChar(text[s + 1], text[s + 2], text[s + 3])])
      else Split(text[s..], cur) == Split(text[s + 2..], cur + [text[s + 1]])
  {
    var rest := text[s..];
    assert rest[1..] == text[s + 1..];
    if text[s] == '\\' && s + 1 < |text| {
      assert rest[2..] == text[s + 2..];
      assert OctalAt(rest, 1) <==> OctalAt(text, s + 1);
      if OctalAt(rest, 1) {
        assert rest[4..] == text[s + 4..];
      }
    }
  }

  /** Handling the first of the arguments `rest` leaves `rest'` to be handled. */
  ghost predicate Stepped(outargs: seq<string>, opts: Option<string>, nonopt: nat, rest: seq<string>,
                          outargs': seq<string>, opts': Option<string>, nonopt': nat, rest': seq<string>) {
    rest != [] &&
    if nonopt > 0 || !IsGroup(rest[0]) then
      outargs' == outargs + [rest[0]] && opts' == opts && rest' == rest[1..] &&
      nonopt' == if nonopt == 0 && rest[0] == "--" then |outargs'| else nonopt
    else if |rest[0]| > 2 then
      outargs' == outargs && opts' == AddAll(opts, Decode(rest[0][2..])) && rest' == rest[1..] && nonopt' == nonopt
    else
      |rest| >= 2 && outargs' == outargs && opts' == AddAll(opts, Decode(rest[1])) && rest' == rest[2..] &&
        nonopt' == nonopt
  }

  /** Where the loop of `opt_parse` stands: `rest` is still to be handled, `others` has been kept. */
  ghost predicate Parsing(args: seq<string>, others: seq<string>, opts: Option<string>, nonopt: nat,
                          rest: seq<string>) {
    if nonopt > 0 then
      others + rest == Others(args) && opts == AddAll(None, Options(args)) && !Missing(args) &&
      (EndsAtSeparator(args) <==> nonopt == 1 + |others| + |rest|) && 2 <= nonopt <= 1 + |others| &&
        others[nonopt - 2] == "--"
    else
      others + Others(rest) == Others(args) && AddAll(opts, Options(rest)) == AddAll(None, Options(args)) &&
      Missing(rest) == Missing(args) && EndsAtSeparator(rest) == EndsAtSeparator(args)
  }

  lemma ParsingStep(args: seq<string>, outargs: seq<string>, opts: Option<string>, nonopt: nat, rest: seq<string>,
                    outargs': seq<string>, opts': Option<string>, nonopt': nat, rest': seq<string>)
    requires outargs != [] && Parsing(args, outargs[1..], opts, nonopt, rest)
    requires Stepped(outargs, opts, nonopt, rest, outargs', opts', nonopt', rest')
    ensures outargs' != [] && outargs'[0] == outargs[0] && Parsing(args, outargs'[1..], opts', nonopt', rest')
  {
    assert outargs <= outargs';
    if nonopt > 0 || !IsGroup(rest[0]) {
      assert outargs'[1..] == outargs[1..] + [rest[0]];
      ParsingKept(args, outargs[1..], opts, nonopt, rest);
    } else if |rest[0]| > 2 {
      assert Options(rest) == Decode(rest[0][2..]) + Options(rest');
      hide Decode;
      AddAllCat(opts, Decode(rest[0][2..]), Options(rest'));
    } else {
      assert Options(rest) == Decode(rest[1]) + Options(rest');
      hide Decode;
      AddAllCat(opts, Decode(rest[1]), Options(rest'));
    }
  }

  /** An argument that is kept */
  lemma ParsingKept(args: seq<string>, others: seq<string>, opts: Option<string>, nonopt: nat, rest: seq<string>)
    requires Parsing(args, others, opts, nonopt, rest) && rest != [] && (nonopt > 0 || !IsGroup(rest[0]))
    ensures var nonopt' := if nonopt == 0 && rest[0] == "--" then |others| + 2 else nonopt;
      Parsing(args, others + [rest[0]], opts, nonopt', rest[1..])
  {
    assert others + [rest[0]] + rest[1..] == others + rest;
    if nonopt == 0 && rest[0] != "--" {
      assert others + [rest[0]] + Others(rest[1..]) == others + Others(rest);
    }
  }

  lemma ParsingError(args: seq<string>, others: seq<string>, opts: Option<string>)
    requires Parsing(args, others, opts, 0, ["-o"])
    ensures Missing(args)
  {
  }

  lemma StartParsing(args: seq<string>)
    ensures Parsing(args, [], None, 0, args)
  {
    assert [] + Others(args) == Others(args);
  }

  /** At the end of the loop. */
  lemma ParsingEnd(args: seq<string>, outargs: seq<string>, opts: Option<string>, nonopt: nat)
    requires outargs != [] && Parsing(args, outargs[1..], opts, nonopt, [])
    ensures outargs[1..] == Others(args) && opts == AddAll(None, Options(args)) && !Missing(args)
    ensures EndsAtSeparator(args) <==> nonopt > 0 && nonopt == |outargs|
    ensures nonopt <= |outargs| && (EndsAtSeparator(args) ==> Others(args) != [] && outargs[|outargs| - 1] == "--")
    ensures opts.Some? <==> Options(args) != []
  {
    assert outargs[1..] + [] == outargs[1..];
    AddAllSome(None, Options(args));
  }

  class ParseContext {
    const argv: seq<string>
    var argctr: nat
    var outargs: seq<string>
    var opts: Option<string>
    var nonopt: nat

    constructor (argv: seq<string>)
      ensures this.argv == argv && argctr == 0 && outargs == [] && opts == None && nonopt == 0
    {
      this.argv := argv;
      argctr, outargs, opts, nonopt := 0, [], None, 0;
    }

    /** `*d = '\0'` and `process_gopt` on the token in front of it */
    method ProcessToken(a: array<char>, d: nat)
      requires d < a.Length
      modifies this`opts, a
      ensures forall k | 0 <= k < a.Length && k != d :: a[k] == old(a[k])
      ensures opts == Some(AddedOpt(old(opts), Cut(old(a[..d]))))
    {
      a[d] := NUL;
      CutAt(a[..], d);
      assert a[..][..d] == old(a[..d]);
      var opt := CStringAt(a);
      var list := AddOptCommon(opts, opt, true);
      opts := Some(list);
    }

    /** `process_real_option_group`: the options of a group are unescaped in place, one after the
        other at the start of the buffer. The write cursor `d` never passes the read cursor `s`. */
    method ProcessRealOptionGroup(a: array<char>)
      requires a.Length > 0 && a[a.Length - 1] == NUL && CString(a[..a.Length - 1])
      modifies this`opts, a
      ensures opts == AddAll(old(opts), Decode(old(a[..a.Length - 1])))
    {
      hide Split, Cut, AddAll, OctalChar, CString;
      var s, d, end := 0, 0, false;
      ghost var n, list0 := a.Length - 1, opts;
      ghost var text := a[..n];
      ghost var done: seq<string> := [];
      StartDecode(text, opts);
      assert a[..0] == "";
      while !end
        invariant d <= s && (end ==> s == n + 1) && (!end ==> s <= n)
        invariant done + (if end then [] else Split(text[s..], a[..d])) == Decode(text)
        invariant forall k | s <= k <= n :: a[k] == if k == n then NUL else text[k]
        invariant opts == AddAll(list0, done)
        decreases a.Length - s
      {
        ghost var cur := a[..d];
        if a[s] == NUL {
          end := true;
          NulOnlyAtEnd(text, s);
        }
        if a[s] == ',' || end {
          SplitToken(text, s, cur);
          AddAllSnoc(list0, done, Cut(cur));
          ProcessToken(a, d);
          assert done + ([Cut(cur)] + if end then [] else Split(text[s + 1..], "")) ==
                 done + [Cut(cur)] + if end then [] else Split(text[s + 1..], "");
          done := done + [Cut(cur)];
          d := 0;
          assert a[..0] == "";
        } else {
          SplitChar(text, s, cur);
          if a[s] == '\\' && a[s + 1] != NUL {
            s := s + 1;
            if '0' <= a[s] <= '3' && '0' <= a[s + 1] <= '7' && '0' <= a[s + 2] <= '7' {
              d := PutChar(a, d, OctalChar(a[s], a[s + 1], a[s + 2]));
              s := s + 2;
            } else {
              d := PutChar(a, d, a[s]);
            }
          } else {
            d := PutChar(a, d, a[s]);
          }
        }
        s := s + 1;
      }
      assert done + [] == done;
    }

    /** What the C library sees of the buffer. */
    static method CStringAt(a: array<char>) returns (r: string)
      ensures r == Cut(a[..])
    {
      var i := 0;
      r := "";
      while i < a.Length && a[i] != NUL
        invariant i <= a.Length && r + Cut(a[i..]) == Cut(a[..])
      {
        assert a[i..][1..] == a[i + 1..];
        r := r + [a[i]];
        i := i + 1;
      }
    }

    /** `process_option_group` works on a copy. */
    method ProcessOptionGroup(group: string)
      requires CString(group)
      modifies this`opts
      ensures opts == AddAll(old(opts), Decode(group))
    {
      var a := new char[|group| + 1](i => if 0 <= i < |group| then group[i] else NUL);
      assert a[..a.Length - 1] == group;
      ProcessRealOptionGroup(a);
    }

    /** `next_arg` */
    method NextArg() returns (res: int)
      modifies this`argctr
      ensures if old(argctr) + 1 >= |argv| then res == -1 && argctr == old(argctr)
              else res == 0 && argctr == old(argctr) + 1
    {
      if argctr + 1 >= |argv| {
        return -1;
      }
      argctr := argctr + 1;
      return 0;
    }

    method AddArg(arg: string)
      modifies this`outargs
      ensures outargs == old(outargs) + [arg]
    {
      outargs := outargs + [arg];
    }

    /** `fuse_opt_insert_arg` */
    method InsertArg(pos: nat, arg: string)
      requires pos <= |outargs|
      modifies this`outargs
      ensures outargs == old(outargs[..pos]) + [arg] + old(outargs[pos..])
    {
      AddArg(arg);
      if pos != |outargs| - 1 {
        var newarg := outargs[|outargs| - 1];
        outargs := outargs[..pos] + [outargs[pos]] + outargs[pos..|outargs| - 1];
        outargs := outargs[pos := newarg];
      }
    }

    /** `process_one` */
    method ProcessOne() returns (res: int)
      requires 0 < argctr < |argv| && CStrings(argv)
      modifies this
      ensures argctr < |argv| && (res == 0 || res == -1)
      ensures res == 0 ==>
        Stepped(old(outargs), old(opts), old(nonopt), argv[old(argctr)..], outargs, opts, nonopt, argv[argctr + 1..])
      ensures res == 0 ==> old(argctr) <= argctr
      ensures res == -1 ==> old(nonopt) == 0 && argv[old(argctr)..] == ["-o"]
    {
      var arg := argv[argctr];
      if nonopt > 0 || arg == "" || arg[0] != '-' {
        AddArg(arg);
      } else if |arg| >= 2 && arg[1] == 'o' {
        if |arg| > 2 {
          ProcessOptionGroup(arg[2..]);
        } else {
          res := NextArg();
          if res == -1 {
            assert arg == "-o" && argv[argctr..] == [arg];
            return;
          }
          ProcessOptionGroup(argv[argctr]);
        }
      } else if arg == "--" {
        AddArg(arg);
        nonopt := |outargs|;
      } else {
        AddArg(arg);
      }
      return 0;
    }

    /** The loop of `opt_parse` */
    method ProcessAll() returns (res: int)
      requires argv != [] && CStrings(argv) && outargs == [argv[0]] && opts == None && nonopt == 0
      modifies this
      ensures res == if Missing(argv[1..]) then -1 else 0
      ensures res == 0 ==> outargs != [] && outargs[0] == argv[0] && Parsing(argv[1..], outargs[1..], opts, nonopt, [])
    {
      hide Options, Others, Missing, EndsAtSeparator, Parsing, Stepped, AddAll;
      ghost var args := argv[1..];
      StartParsing(args);
      assert outargs[1..] == [];
      argctr := 1;
      while argctr < |argv|
        invariant 0 < argctr <= |argv| && outargs != [] && outargs[0] == argv[0]
        invariant Parsing(args, outargs[1..], opts, nonopt, argv[argctr..])
      {
        ghost var rest, outargs0, opts0, nonopt0 := argv[argctr..], outargs, opts, nonopt;
        res := ProcessOne();
        if res == -1 {
          ParsingError(args, outargs0[1..], opts0);
          return;
        }
        argctr := argctr + 1;
        ParsingStep(args, outargs0, opts0, nonopt0, rest, outargs, opts, nonopt, argv[argctr..]);
      }
      assert argv[argctr..] == [];
      ParsingEnd(args, outargs, opts, nonopt);
      return 0;
    }

    /** `opt_parse` */
    method OptParse() returns (res: int)
      requires argv != [] && CStrings(argv) && outargs == [] && opts == None && nonopt == 0
      modifies this
      ensures res == if Missing(argv[1..]) then -1 else 0
      ensures res == 0 ==> outargs == [argv[0]] + Parsed(argv[1..])
    {
      hide Options, Others, Missing, EndsAtSeparator, Parsing, AddAll;
      AddArg(argv[0]);
      res := ProcessAll();
      if res == -1 {
        return;
      }
      ParsingEnd(argv[1..], outargs, opts, nonopt);
      ghost var kept := outargs;
      assert kept == [argv[0]] + kept[1..];
      if opts.Some? {
        InsertArg(1, "-o");
        InsertArg(2, opts.value);
        assert outargs == [argv[0]] + (["-o", opts.value] + kept[1..]);
      }
      if nonopt > 0 && nonopt == |outargs| && outargs[|outargs| - 1] == "--" {
        outargs := outargs[..|outargs| - 1];
        assert outargs == [argv[0]] + kept[1..][..|kept| - 2];
      }
      return 0;
    }
  }

  /** `fuse_opt_parse`: on success the arguments are replaced. */
  method FuseOptParse(args: seq<string>) returns (res: int, args': seq<string>)
    requires CStrings(args)
    ensures res == (if args != [] && Missing(args[1..]) then -1 else 0)
    ensures args' == if args == [] || res == -1 then args else [args[0]] + Parsed(args[1..])
  {
    if args == [] {
      return 0, args;
    }
    var ctx := new ParseContext(args);
    res := ctx.OptParse();
    args' := if res != -1 then ctx.outargs else args;
  }
}
