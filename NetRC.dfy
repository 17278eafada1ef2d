/**
 * The credential table `WritableNetRC` (cmscloud_client/client.py:28-61):
 * a map from host to (login, account, password) that `add` and `remove`
 * update in place and `write` turns into netrc text.
 *
 * Python's `netrc` parser, which fills the table from the file, belongs to
 * the standard library; `ReadNetrc` below is a line-level reader standing in
 * for it on the text that `write` produces, so that the text can be shown to
 * carry the whole table.
 */
module NetRC {

  /** One credential record; an absent field (`None` or `''`) is the empty string. */
  datatype Entry = Entry(login: string, account: string, password: string)

  type Hosts = map<string, Entry>

  const MachinePrefix := "machine "
  const LoginPrefix := "\tlogin "
  const AccountPrefix := "\taccount "
  const PasswordPrefix := "\tpassword "

  // ---------------------------------------------------------------------
  // The text `write` produces, as lines.
  // ---------------------------------------------------------------------

  /** The indented lines for one record: login, account, password, each only when non-empty. */
  function FieldLines(e: Entry): seq<string> {
    (if e.login != "" then [LoginPrefix + e.login] else [])
    + (if e.account != "" then [AccountPrefix + e.account] else [])
    + (if e.password != "" then [PasswordPrefix + e.password] else [])
  }

  /** The block for one host: its `machine` line, then its field lines. */
  function BlockLines(host: string, e: Entry): seq<string> {
    [MachinePrefix + host] + FieldLines(e)
  }

  /** The blocks of the hosts in `order`, one after the other. */
  function RenderLines(hosts: Hosts, order: seq<string>): seq<string>
    requires forall i :: 0 <= i < |order| ==> order[i] in hosts
  {
    if order == [] then []
    else BlockLines(order[0], hosts[order[0]]) + RenderLines(hosts, order[1..])
  }

  /** Every line followed by a newline. */
  function JoinLines(lines: seq<string>): string {
    if lines == [] then "" else lines[0] + "\n" + JoinLines(lines[1..])
  }

  /** The file contents `write` produces when `hosts.items()` yields the hosts in `order`. */
  function Render(hosts: Hosts, order: seq<string>): string
    requires forall i :: 0 <= i < |order| ==> order[i] in hosts
  {
    JoinLines(RenderLines(hosts, order))
  }

  /** `order` lists every host of the table exactly once. */
  predicate EnumeratesKeys(hosts: Hosts, order: seq<string>) {
    && (forall h :: h in hosts ==> h in order)
    && (forall i :: 0 <= i < |order| ==> order[i] in hosts)
    && (forall i, j :: 0 <= i < j < |order| ==> order[i] != order[j])
  }

  /** No host name or field contains a newline (the file is line-structured). */
  predicate SingleLine(hosts: Hosts) {
    forall h :: h in hosts ==>
      && '\n' !in h
      && '\n' !in hosts[h].login
      && '\n' !in hosts[h].account
      && '\n' !in hosts[h].password
  }

  lemma {:induction false} JoinLinesAppend(a: seq<string>, b: seq<string>)
    ensures JoinLines(a + b) == JoinLines(a) + JoinLines(b)
  {
    if a != [] {
      assert (a + b)[1..] == a[1..] + b;
      JoinLinesAppend(a[1..], b);
    } else {
      assert a + b == b;
    }
  }

  lemma {:induction false} RenderLinesAppend(hosts: Hosts, order: seq<string>, h: string)
    requires forall i :: 0 <= i < |order| ==> order[i] in hosts
    requires h in hosts
    ensures RenderLines(hosts, order + [h]) == RenderLines(hosts, order) + BlockLines(h, hosts[h])
  {
    if order == [] {
      assert order + [h] == [h];
      assert [h][1..] == [];
    } else {
      assert (order + [h])[1..] == order[1..] + [h];
      RenderLinesAppend(hosts, order[1..], h);
    }
  }

  lemma JoinLinesSnoc(lines: seq<string>, l: string)
    ensures JoinLines(lines + [l]) == JoinLines(lines) + (l + "\n")
  {
    JoinLinesAppend(lines, [l]);
    assert JoinLines([l]) == l + "\n" + JoinLines([]);
  }

  /** Every line of a block carries a value after its keyword. */
  lemma BlockLinesCarryValues(host: string, e: Entry)
    ensures forall l :: l in BlockLines(host, e) ==>
              l != LoginPrefix && l != AccountPrefix && l != PasswordPrefix
  {
    forall l | l in BlockLines(host, e)
      ensures l != LoginPrefix && l != AccountPrefix && l != PasswordPrefix
    {
      if l == MachinePrefix + host {
        assert l[0] == 'm';
      } else if e.login != "" && l == LoginPrefix + e.login {
        assert |l| > |LoginPrefix| && l[1] == 'l';
      } else if e.account != "" && l == AccountPrefix + e.account {
        assert |l| > |AccountPrefix| && l[1] == 'a';
      } else {
        assert e.password != "" && l == PasswordPrefix + e.password;
        assert |l| > |PasswordPrefix| && l[1] == 'p';
      }
    }
  }

  /** Every host listed in `order` gets its `machine` line. */
  lemma {:induction false} MachineLinesListed(hosts: Hosts, order: seq<string>)
    requires forall i :: 0 <= i < |order| ==> order[i] in hosts
    ensures forall i :: 0 <= i < |order| ==> MachinePrefix + order[i] in RenderLines(hosts, order)
  {
    if order != [] {
      MachineLinesListed(hosts, order[1..]);
      var block := BlockLines(order[0], hosts[order[0]]);
      var rest := RenderLines(hosts, order[1..]);
      assert RenderLines(hosts, order) == block + rest;
      assert block[0] == MachinePrefix + order[0];
      forall i | 1 <= i < |order|
        ensures MachinePrefix + order[i] in RenderLines(hosts, order)
      {
        assert order[i] == order[1..][i - 1];
      }
    }
  }

  /** `write` emits a `machine` line for every host of the table. */
  lemma EveryHostWritten(hosts: Hosts, order: seq<string>)
    requires EnumeratesKeys(hosts, order)
    ensures forall h :: h in hosts ==> MachinePrefix + h in RenderLines(hosts, order)
  {
    MachineLinesListed(hosts, order);
    forall h | h in hosts
      ensures MachinePrefix + h in RenderLines(hosts, order)
    {
      var i :| 0 <= i < |order| && order[i] == h;
    }
  }

  /** An empty field never produces a line: every field line carries a value. */
  lemma {:induction false} NoEmptyFieldLines(hosts: Hosts, order: seq<string>)
    requires forall i :: 0 <= i < |order| ==> order[i] in hosts
    ensures forall l :: l in RenderLines(hosts, order) ==>
              l != LoginPrefix && l != AccountPrefix && l != PasswordPrefix
  {
    if order != [] {
      NoEmptyFieldLines(hosts, order[1..]);
      BlockLinesCarryValues(order[0], hosts[order[0]]);
    }
  }

  // ---------------------------------------------------------------------
  // The table, updated in place.
  // ---------------------------------------------------------------------

  class WritableNetRC {
    var hosts: Hosts

    /**
     * The table as parsed from `~/.netrc`; creating the file when it is
     * missing, its permissions and the HOME lookup are not modelled.
     */
    constructor (stored: Hosts)
      ensures hosts == stored
    {
      hosts := stored;
    }

    /** `add`: `host` now maps to the new record; every other host is untouched. */
    method Add(host: string, login: string, account: string, password: string)
      modifies this
      ensures hosts == old(hosts)[host := Entry(login, account, password)]
      ensures host in hosts && hosts[host] == Entry(login, account, password)
      ensures forall h :: h != host ==> (h in hosts <==> h in old(hosts))
      ensures forall h :: h != host && h in hosts ==> hosts[h] == old(hosts)[h]
    {
      hosts := hosts[host := Entry(login, account, password)];
    }

    /** `remove`: deletes `host` only; removing an absent host changes nothing. */
    method Remove(host: string)
      modifies this
      ensures hosts == old(hosts) - {host}
      ensures host !in hosts
      ensures host !in old(hosts) ==> hosts == old(hosts)
      ensures forall h :: h != host ==> (h in hosts <==> h in old(hosts))
    {
      if host in hosts {
        hosts := hosts - {host};
      }
    }

    /**
     * `write`: the netrc text for the table. The hosts come out in the order
     * `hosts.items()` yields them, which Python leaves unspecified; `order`
     * is that order, and it names every host exactly once.
     */
    method Write() returns (text: string, order: seq<string>)
      ensures EnumeratesKeys(hosts, order)
      ensures text == Render(hosts, order)
    {
      text, order := "", [];
      var rest := hosts.Keys;
      while rest != {}
        invariant rest <= hosts.Keys
        invariant forall i :: 0 <= i < |order| ==> order[i] in hosts && order[i] !in rest
        invariant forall h :: h in hosts ==> h in rest || h in order
        invariant forall i, j :: 0 <= i < j < |order| ==> order[i] != order[j]
        invariant text == Render(hosts, order)
        decreases |rest|
      {
        var machine :| machine in rest;
        var block := WriteMachine(machine, hosts[machine]);
        JoinLinesAppend(RenderLines(hosts, order), BlockLines(machine, hosts[machine]));
        text := text + block;
        RenderLinesAppend(hosts, order, machine);
        order := order + [machine];
        rest := rest - {machine};
      }
    }
  }

  /**
   * The writes `write` makes for one host: the `machine` line, then a line
   * for each non-empty field, in the order login, account, password.
   */
  method WriteMachine(machine: string, data: Entry) returns (text: string)
    ensures text == JoinLines(BlockLines(machine, data))
  {
    ghost var block := [MachinePrefix + machine];
    JoinLinesSnoc([], MachinePrefix + machine);
    text := MachinePrefix + machine + "\n";
    if data.login != "" {
      JoinLinesSnoc(block, LoginPrefix + data.login);
      text := text + (LoginPrefix + data.login + "\n");
      block := block + [LoginPrefix + data.login];
    }
    assert text == JoinLines(block);
    if data.account != "" {
      JoinLinesSnoc(block, AccountPrefix + data.account);
      text := text + (AccountPrefix + data.account + "\n");
      block := block + [AccountPrefix + data.account];
    }
    assert text == JoinLines(block);
    if data.password != "" {
      JoinLinesSnoc(block, PasswordPrefix + data.password);
      text := text + (PasswordPrefix + data.password + "\n");
      block := block + [PasswordPrefix + data.password];
    }
    assert block == BlockLines(machine, data);
  }

  // ---------------------------------------------------------------------
  // Reading the text back.
  // ---------------------------------------------------------------------

  /** Index of the first newline of `s`, or `|s|` when there is none. */
  function NewlineIndex(s: string): (i: nat)
    ensures i <= |s|
    ensures forall k :: 0 <= k < i ==> s[k] != '\n'
    ensures i < |s| ==> s[i] == '\n'
  {
    if s == [] || s[0] == '\n' then 0 else 1 + NewlineIndex(s[1..])
  }

  /** The lines of `s`, each without its newline. */
  function SplitLines(s: string): seq<string>
    decreases |s|
  {
    if s == [] then []
    else
      var i := NewlineIndex(s);
      [s[..i]] + (if i < |s| then SplitLines(s[i + 1..]) else [])
  }

  predicate HasPrefix(s: string, p: string) {
    |p| <= |s| && forall k :: 0 <= k < |p| ==> s[k] == p[k]
  }

  predicate IsMachineLine(l: string) {
    HasPrefix(l, MachinePrefix)
  }

  /** How many lines at the front of `ls` belong to the current block. */
  function FieldRun(ls: seq<string>): (n: nat)
    ensures n <= |ls|
  {
    if ls == [] || IsMachineLine(ls[0]) then 0 else 1 + FieldRun(ls[1..])
  }

  /** One indented field line applied to a record; an unrecognised line changes nothing. */
  function ReadField(l: string, e: Entry): Entry {
    if HasPrefix(l, LoginPrefix) then e.(login := l[|LoginPrefix|..])
    else if HasPrefix(l, AccountPrefix) then e.(account := l[|AccountPrefix|..])
    else if HasPrefix(l, PasswordPrefix) then e.(password := l[|PasswordPrefix|..])
    else e
  }

  function ReadFields(ls: seq<string>, e: Entry): Entry {
    if ls == [] then e else ReadFields(ls[1..], ReadField(ls[0], e))
  }

  /**
   * The table described by `ls`. Fields missing from a block read as empty,
   * and a host listed twice keeps its later block, as with Python's parser.
   */
  function ReadLines(ls: seq<string>): Hosts
    decreases |ls|
  {
    if ls == [] then map[]
    else if IsMachineLine(ls[0]) then
      var n := FieldRun(ls[1..]);
      map[ls[0][|MachinePrefix|..] := ReadFields(ls[1..1 + n], Entry("", "", ""))]
        + ReadLines(ls[1 + n..])
    else ReadLines(ls[1..])
  }

  function ReadNetrc(text: string): Hosts {
    ReadLines(SplitLines(text))
  }

  lemma NewlineIndexAt(s: string, k: nat)
    requires k < |s| && s[k] == '\n'
    requires forall j :: 0 <= j < k ==> s[j] != '\n'
    ensures NewlineIndex(s) == k
  {
  }

  lemma SplitFirst(l: string, tail: string)
    requires '\n' !in l
    ensures SplitLines(l + "\n" + tail) == [l] + SplitLines(tail)
  {
    var s := l + "\n" + tail;
    assert forall j :: 0 <= j < |l| ==> s[j] == l[j] && l[j] in l;
    NewlineIndexAt(s, |l|);
    assert s[..|l|] == l;
    assert s[|l| + 1..] == tail;
  }

  lemma {:induction false} SplitJoin(ls: seq<string>)
    requires forall i :: 0 <= i < |ls| ==> '\n' !in ls[i]
    ensures SplitLines(JoinLines(ls)) == ls
  {
    if ls != [] {
      SplitFirst(ls[0], JoinLines(ls[1..]));
      SplitJoin(ls[1..]);
    }
  }

  lemma FieldLinesStartIndented(e: Entry)
    ensures forall l :: l in FieldLines(e) ==> |l| > 0 && l[0] == '\t'
  {
  }

  lemma {:induction false} FieldRunOverFields(fs: seq<string>, rest: seq<string>)
    requires forall l :: l in fs ==> |l| > 0 && l[0] == '\t'
    requires rest == [] || IsMachineLine(rest[0])
    ensures FieldRun(fs + rest) == |fs|
  {
    if fs == [] {
      assert fs + rest == rest;
    } else {
      assert fs[0] in fs;
      assert fs[0][0] != MachinePrefix[0];
      assert (fs + rest)[1..] == fs[1..] + rest;
      FieldRunOverFields(fs[1..], rest);
    }
  }

  lemma {:induction false} ReadFieldsAppend(a: seq<string>, b: seq<string>, e: Entry)
    ensures ReadFields(a + b, e) == ReadFields(b, ReadFields(a, e))
  {
    if a == [] {
      assert a + b == b;
    } else {
      assert (a + b)[0] == a[0];
      assert (a + b)[1..] == a[1..] + b;
      ReadFieldsAppend(a[1..], b, ReadField(a[0], e));
    }
  }

  lemma ReadFieldLogin(v: string, e: Entry)
    ensures ReadField(LoginPrefix + v, e) == e.(login := v)
  {
    assert (LoginPrefix + v)[|LoginPrefix|..] == v;
  }

  lemma ReadFieldAccount(v: string, e: Entry)
    ensures ReadField(AccountPrefix + v, e) == e.(account := v)
  {
    var l := AccountPrefix + v;
    assert l[1] != LoginPrefix[1];
    assert l[|AccountPrefix|..] == v;
  }

  lemma ReadFieldPassword(v: string, e: Entry)
    ensures ReadField(PasswordPrefix + v, e) == e.(password := v)
  {
    var l := PasswordPrefix + v;
    assert l[1] != LoginPrefix[1] && l[1] != AccountPrefix[1];
    assert l[|PasswordPrefix|..] == v;
  }

  lemma ReadFieldsSingle(l: string, e: Entry)
    ensures ReadFields([l], e) == ReadField(l, e)
  {
    assert [l][1..] == [];
  }

  lemma ReadFieldsOfFieldLines(e: Entry)
    ensures ReadFields(FieldLines(e), Entry("", "", "")) == e
  {
    var z := Entry("", "", "");
    var l := if e.login != "" then [LoginPrefix + e.login] else [];
    var a := if e.account != "" then [AccountPrefix + e.account] else [];
    var p := if e.password != "" then [PasswordPrefix + e.password] else [];
    ReadFieldLogin(e.login, z);
    ReadFieldsSingle(LoginPrefix + e.login, z);
    var e1 := ReadFields(l, z);
    assert e1 == z.(login := e.login);
    ReadFieldAccount(e.account, e1);
    ReadFieldsSingle(AccountPrefix + e.account, e1);
    var e2 := ReadFields(a, e1);
    assert e2 == e1.(account := e.account);
    ReadFieldPassword(e.password, e2);
    ReadFieldsSingle(PasswordPrefix + e.password, e2);
    assert ReadFields(p, e2) == e;
    ReadFieldsAppend(l, a + p, z);
    ReadFieldsAppend(a, p, e1);
    assert FieldLines(e) == l + (a + p);
  }

  /** Reading a `machine` line, its indented field lines, then further blocks. */
  lemma ReadMachineLine(h: string, fs: seq<string>, rest: seq<string>)
    requires forall l :: l in fs ==> |l| > 0 && l[0] == '\t'
    requires rest == [] || IsMachineLine(rest[0])
    ensures ReadLines([MachinePrefix + h] + (fs + rest))
         == map[h := ReadFields(fs, Entry("", "", ""))] + ReadLines(rest)
  {
    var ls := [MachinePrefix + h] + (fs + rest);
    assert ls[1..] == fs + rest;
    FieldRunOverFields(fs, rest);
    assert ls[1..1 + |fs|] == fs;
    assert ls[1 + |fs|..] == rest;
    assert ls[0][..|MachinePrefix|] == MachinePrefix;
    assert ls[0][|MachinePrefix|..] == h;
  }

  /** Reading one block in front of further blocks. */
  lemma ReadBlock(h: string, e: Entry, rest: seq<string>)
    requires rest == [] || IsMachineLine(rest[0])
    ensures ReadLines(BlockLines(h, e) + rest) == map[h := e] + ReadLines(rest)
  {
    var fs := FieldLines(e);
    assert BlockLines(h, e) + rest == [MachinePrefix + h] + (fs + rest);
    FieldLinesStartIndented(e);
    ReadMachineLine(h, fs, rest);
    ReadFieldsOfFieldLines(e);
  }

  /** The table restricted to the hosts that `order` names. */
  function Listed(hosts: Hosts, order: seq<string>): Hosts
    requires forall i :: 0 <= i < |order| ==> order[i] in hosts
  {
    map h | h in order :: hosts[h]
  }

  lemma {:induction false} ReadRenderLines(hosts: Hosts, order: seq<string>)
    requires forall i :: 0 <= i < |order| ==> order[i] in hosts
    ensures ReadLines(RenderLines(hosts, order)) == Listed(hosts, order)
  {
    if order != [] {
      var h := order[0];
      var tail := order[1..];
      var rest := RenderLines(hosts, tail);
      assert rest == [] || IsMachineLine(rest[0]) by {
        if tail != [] {
          assert rest[0] == MachinePrefix + tail[0];
        }
      }
      ReadBlock(h, hosts[h], rest);
      ReadRenderLines(hosts, tail);
      ListedCons(hosts, order);
    }
  }

  lemma ListedCons(hosts: Hosts, order: seq<string>)
    requires order != []
    requires forall i :: 0 <= i < |order| ==> order[i] in hosts
    ensures Listed(hosts, order) == map[order[0] := hosts[order[0]]] + Listed(hosts, order[1..])
  {
    assert forall k :: k in order <==> k == order[0] || k in order[1..];
  }

  lemma {:induction false} RenderLinesSingleLine(hosts: Hosts, order: seq<string>)
    requires forall i :: 0 <= i < |order| ==> order[i] in hosts
    requires SingleLine(hosts)
    ensures forall l :: l in RenderLines(hosts, order) ==> '\n' !in l
  {
    if order != [] {
      RenderLinesSingleLine(hosts, order[1..]);
      var h := order[0];
      var e := hosts[h];
      forall l | l in BlockLines(h, e) ensures '\n' !in l {
        if l == MachinePrefix + h {
        } else if e.login != "" && l == LoginPrefix + e.login {
        } else if e.account != "" && l == AccountPrefix + e.account {
        } else {
          assert l == PasswordPrefix + e.password;
        }
      }
    }
  }

  /**
   * What `write` puts in the file reads back as exactly the table it was
   * given: every host, with every field, empty fields included.
   */
  lemma WriteReadsBack(hosts: Hosts, order: seq<string>)
    requires EnumeratesKeys(hosts, order)
    requires SingleLine(hosts)
    ensures ReadNetrc(Render(hosts, order)) == hosts
  {
    var ls := RenderLines(hosts, order);
    RenderLinesSingleLine(hosts, order);
    assert forall i :: 0 <= i < |ls| ==> '\n' !in ls[i] by {
      forall i | 0 <= i < |ls| ensures '\n' !in ls[i] { assert ls[i] in ls; }
    }
    SplitJoin(ls);
    ReadRenderLines(hosts, order);
    assert Listed(hosts, order) == hosts;
  }
}
