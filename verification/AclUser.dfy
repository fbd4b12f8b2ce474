/** A user as acl.c keeps and changes it, proved against the rule interpreter
    and the printer of module Acl. */
module AclUser {
  import opened Collections
  import opened Acl

  class UserRecord {
    var enabled: bool
    var disabled: bool
    var allkeys: bool
    var allcommands: bool
    var nopass: bool
    var bits: set<nat>
    var subs: map<nat, seq<string>>
    var passwords: seq<string>
    var patterns: seq<string>

    ghost function Value(): User
      reads this
    {
      User(enabled, disabled, allkeys, allcommands, nopass, bits, subs, passwords, patterns)
    }

    /** ACLCreateUser. */
    constructor ()
      ensures Value() == Fresh()
    {
      enabled, disabled, allkeys, allcommands, nopass := false, true, false, false, false;
      bits, subs, passwords, patterns := {}, map[], [], [];
    }

    /** ACLSetUserCommandBit. */
    method SetCommandBit(id: nat, value: bool)
      modifies `bits, `allcommands
      ensures bits == if id >= BITS then old(bits) else if value then old(bits) + {id} else old(bits) - {id}
      ensures allcommands == (old(allcommands) && (value || id >= BITS))
    {
      if id >= BITS {
        return;
      }
      if value {
        bits := bits + {id};
      } else {
        bits := bits - {id};
        allcommands := false;
      }
    }

    /** ACLResetSubcommandsForCommand. */
    method ResetSubcommandsFor(id: nat)
      modifies `subs
      ensures subs == old(subs) - {id}
    {
      subs := subs - {id};
    }

    /** ACLAddAllowedSubcommand: not added again in another case. */
    method AddAllowedSubcommand(id: nat, sub: string)
      modifies `subs
      ensures subs == WithSub(old(subs), id, sub)
    {
      var known := if id in subs then subs[id] else [];
      for i := 0 to |known|
        invariant forall k | 0 <= k < i :: Lower(known[k]) != Lower(sub)
      {
        if Lower(known[i]) == Lower(sub) {
          return;
        }
      }
      subs := subs[id := known + [sub]];
    }

    /** ACLSetUserCommandBitsForCategory: fails on an unknown category. */
    method SetCategory(table: Table, category: string, value: bool) returns (ok: bool)
      requires Sound(table)
      modifies `bits, `subs, `allcommands
      ensures ok == (category in table.categories)
      ensures Value() == if ok then ChangeBits(old(Value()), CategoryIds(table, category), value) else old(Value())
    {
      if category !in table.categories {
        return false;
      }
      ok := true;
      NoBits(Value(), value);
      assert IdsBelow(table, category, 0) == {};
      for i := 0 to |table.commands|
        invariant Value() == ChangeBits(old(Value()), IdsBelow(table, category, i), value)
      {
        CategoryIdsMore(table, category, i);
        var c := table.commands[i];
        if !c.ofModule && category in c.categories {
          OneBit(old(Value()), IdsBelow(table, category, i), c.id, value);
          SetWholeCommand(c.id, value);
        }
      }
      assert Table(table.commands[..|table.commands|], table.categories) == table;
    }

    /** The bit of a command, and no more subcommands of it. */
    method SetWholeCommand(id: nat, value: bool)
      requires id < BITS
      modifies `bits, `subs, `allcommands
      ensures Value() == ChangeBits(old(Value()), {id}, value)
    {
      SetCommandBit(id, value);
      ResetSubcommandsFor(id);
    }

    /** ACLSetUser: the outcome and the new state are those of the interpreter;
        a rule that fails changes nothing. */
    method SetUser(rule: Rule, table: Table, hash: string -> string) returns (ok: bool)
      requires Sound(table)
      modifies this
      ensures ok == Apply(old(Value()), rule, table, hash).Ok?
      ensures Value() == if ok then Apply(old(Value()), rule, table, hash).user else old(Value())
    {
      if AboutPasswords(rule) {
        ok := SetPasswords(rule, hash);
      } else if AboutOneCommand(rule) {
        ok := SetCommand(rule, table);
      } else if AboutCategory(rule) {
        ok := SetCategory(table, rule.category, rule.AddCategory?);
      } else {
        ok := SetFlags(rule);
      }
    }

    method SetFlags(rule: Rule) returns (ok: bool)
      requires !AboutPasswords(rule) && !AboutOneCommand(rule) && !AboutCategory(rule)
      modifies this
      ensures ok == ApplyFlags(old(Value()), rule).Ok?
      ensures Value() == if ok then ApplyFlags(old(Value()), rule).user else old(Value())
    {
      ok := true;
      match rule {
        case On => enabled, disabled := true, false;
        case Off => enabled, disabled := false, true;
        case AllKeys => allkeys, patterns := true, [];
        case ResetKeys => allkeys, patterns := false, [];
        case AllCommands => bits, allcommands, subs := AllBits(), true, map[];
        case NoCommands => bits, allcommands, subs := {}, false, map[];
        case Pattern(p) => ok := AddPattern(p);
        case Reset =>
          nopass, passwords := false, [];
          allkeys, patterns := false, [];
          enabled, disabled := false, true;
          bits, allcommands, subs := {}, false, map[];
        case Nothing =>
        case Unknown => ok := false;
      }
    }

    method SetPasswords(rule: Rule, hash: string -> string) returns (ok: bool)
      requires AboutPasswords(rule)
      modifies `passwords, `nopass
      ensures ok == ApplyPassword(old(Value()), rule, hash).Ok?
      ensures Value() == if ok then ApplyPassword(old(Value()), rule, hash).user else old(Value())
    {
      ok := true;
      match rule {
        case NoPass => nopass, passwords := true, [];
        case ResetPass => nopass, passwords := false, [];
        case AddPass(p) => AddPassword(hash(p));
        case DelPass(p) => ok := RemovePassword(hash(p));
        case AddHash(h) => ok := ChangeHash(h, true);
        case DelHash(h) => ok := ChangeHash(h, false);
      }
    }

    /** A hash given as such must look like one. */
    method ChangeHash(h: string, add: bool) returns (ok: bool)
      modifies `passwords, `nopass
      ensures var r := if !ValidHash(h) then Err(BadMessage)
                       else if add then Ok(WithPassword(old(Value()), h)) else WithoutPassword(old(Value()), h);
              ok == r.Ok? && Value() == if ok then r.user else old(Value())
    {
      ok := ValidHash(h);
      if ok && add {
        AddPassword(h);
      } else if ok {
        ok := RemovePassword(h);
      }
    }

    method AddPattern(p: string) returns (ok: bool)
      modifies `allkeys, `patterns
      ensures ok == ApplyPattern(old(Value()), p).Ok?
      ensures Value() == if ok then ApplyPattern(old(Value()), p).user else old(Value())
    {
      if p == "*" {
        allkeys, patterns := true, [];
        return true;
      }
      if allkeys || HasSpaces(p) {
        return false;
      }
      if p !in patterns {
        patterns := patterns + [p];
      }
      return true;
    }

    method AddPassword(h: string)
      modifies `passwords, `nopass
      ensures Value() == WithPassword(old(Value()), h)
    {
      if h !in passwords {
        passwords := passwords + [h];
      }
      nopass := false;
    }

    method RemovePassword(h: string) returns (ok: bool)
      modifies `passwords
      ensures ok == WithoutPassword(old(Value()), h).Ok?
      ensures Value() == if ok then WithoutPassword(old(Value()), h).user else old(Value())
    {
      ok := h in passwords;
      if ok {
        passwords := Without(passwords, h);
      }
    }

    method SetCommand(rule: Rule, table: Table) returns (ok: bool)
      requires Sound(table) && AboutOneCommand(rule)
      modifies `bits, `subs, `allcommands
      ensures ok == ApplyCommand(old(Value()), rule, table).Ok?
      ensures Value() == if ok then ApplyCommand(old(Value()), rule, table).user else old(Value())
    {
      var found := Find(table.commands, rule.name);
      FindFinds(table.commands, rule.name);
      if found.None? {
        return false;
      }
      var id := found.value.id;
      if rule.AddSub? {
        if rule.sub == "" || id in bits {
          return false;
        }
        AddAllowedSubcommand(id, rule.sub);
        SetCommandBit(id, false);
        assert bits == old(bits);
      } else {
        SetCommandBit(id, rule.AddCommand?);
        ResetSubcommandsFor(id);
      }
      return true;
    }

    /** ACLCopyUser: subcommands are added one by one. */
    method CopyFrom(src: UserRecord, table: Table)
      requires src != this && Sound(table) && Inv(src.Value(), table)
      modifies this
      ensures Value() == src.Value()
    {
      passwords, patterns, bits := src.passwords, src.patterns, src.bits;
      enabled, disabled, allkeys, allcommands, nopass := src.enabled, src.disabled, src.allkeys, src.allcommands,
        src.nopass;
      CopyAllSubcommands(src, table);
    }

    method CopyAllSubcommands(src: UserRecord, table: Table)
      requires src != this && Sound(table) && SubsFit(src.Value(), table)
      modifies `subs
      ensures subs == src.subs
    {
      subs := map[];
      for j := 0 to BITS
        invariant subs == SubsBelow(src.subs, j)
      {
        SubsBelowStep(src.subs, j);
        if j in src.subs {
          CopySubcommands(j, src.subs[j]);
        }
      }
      assert forall id | id in src.subs :: id in Ids(table.commands);
      assert SubsBelow(src.subs, BITS) == src.subs;
    }

    method CopySubcommands(id: nat, named: seq<string>)
      requires id !in subs && DistinctFolded(named) && named != []
      modifies `subs
      ensures subs == old(subs)[id := named]
    {
      for i := 0 to |named|
        invariant subs == if i == 0 then old(subs) else old(subs)[id := named[..i]]
      {
        assert named[..i + 1] == named[..i] + [named[i]];
        LastIsNew(named[..i + 1]);
        AddAllowedSubcommand(id, named[i]);
      }
      assert named[..|named|] == named;
    }

    /** ACLCheckCommandPerm. */
    method CheckCommandPerm(id: nat, isAuth: bool, argv: seq<string>, keys: seq<string>, glob: (string, string) -> bool)
      returns (verdict: Verdict)
      ensures verdict == Check(Value(), id, isAuth, argv, keys, glob)
    {
      if !allcommands && !isAuth && id !in bits {
        if |argv| < 2 || id !in subs {
          return DeniedCommand;
        }
        var allowed := subs[id];
        var i := 0;
        while i < |allowed| && Lower(allowed[i]) != Lower(argv[1])
          invariant i <= |allowed| && forall k | 0 <= k < i :: Lower(allowed[k]) != Lower(argv[1])
        {
          i := i + 1;
        }
        if i == |allowed| {
          return DeniedCommand;
        }
        assert Contains(allowed, argv[1]);
      }
      if !allkeys {
        for j := 0 to |keys|
          invariant forall k | 0 <= k < j :: Matches(patterns, keys[k], glob)
        {
          var matched := false;
          for i := 0 to |patterns|
            invariant matched == exists k :: 0 <= k < i && glob(patterns[k], keys[j])
          {
            matched := matched || glob(patterns[i], keys[j]);
          }
          if !matched {
            assert !Matches(patterns, keys[j], glob);
            return DeniedKey;
          }
        }
      }
      return Allowed;
    }

    /** ACLDescribeUser. */
    method DescribeUser(table: Table, hash: string -> string) returns (rules: seq<Rule>)
      requires Sound(table) && Inv(Value(), table)
      ensures rules == Describe(Value(), table)
    {
      var flags := (if enabled then [On] else []) + (if disabled then [Off] else []) + if nopass then [NoPass] else [];
      var hashes: seq<Rule> := [];
      for i := 0 to |passwords|
        invariant hashes == HashRules(passwords[..i])
      {
        hashes := hashes + [AddHash(passwords[i])];
      }
      assert passwords[..|passwords|] == passwords;
      var keys := [AllKeys];
      if !allkeys {
        keys := [];
        for i := 0 to |patterns|
          invariant keys == PatternRules(patterns[..i])
        {
          keys := keys + [Pattern(patterns[i])];
        }
        assert patterns[..|patterns|] == patterns;
      }
      var commands := DescribeCommandRules(table, hash);
      rules := flags + hashes + keys + commands;
    }

    /** ACLDescribeUserCommandRules: rules are tried on a fake user as they are
        found, and the final comparison of the bitmaps never fails. */
    method DescribeCommandRules(table: Table, hash: string -> string) returns (rules: seq<Rule>)
      requires Sound(table) && Inv(Value(), table)
      ensures rules == CommandRules(Value(), table)
    {
      var fake := new UserRecord();
      var additive := RESERVED !in bits;
      var first := if additive then NoCommands else AllCommands;
      rules := [first];
      var ok := fake.SetUser(first, table, hash);
      var cats := DescribeCategories(fake, additive, table, hash);
      var fixes := DescribeFixes(fake, table);
      PredictedBitmapMatches(Value(), table);
      assert fake.bits == bits;
      rules := rules + cats + fixes;
    }

    method DescribeCategories(fake: UserRecord, additive: bool, table: Table, hash: string -> string)
      returns (rules: seq<Rule>)
      requires Sound(table) && fake != this && fake.bits == if additive then {} else AllBits()
      modifies fake
      ensures rules == CategoryRules(bits, table, additive, table.categories)
      ensures fake.bits == CategoryBits(bits, table, additive, table.categories)
    {
      rules := [];
      for j := 0 to |table.categories|
        invariant rules == CategoryRules(bits, table, additive, table.categories[..j])
        invariant fake.bits == CategoryBits(bits, table, additive, table.categories[..j])
      {
        assert table.categories[..j + 1][..j] == table.categories[..j];
        var cat := table.categories[j];
        var on, off := CountCategoryBits(table, cat);
        if (additive && on > off) || (!additive && off > on) {
          fake.ApplyCategory(additive, cat, table, hash);
          rules := rules + [CategoryRule(additive, cat)];
        }
      }
      assert table.categories[..|table.categories|] == table.categories;
    }

    /** A rule about a known category. */
    method ApplyCategory(additive: bool, cat: string, table: Table, hash: string -> string)
      requires Sound(table) && cat in table.categories
      modifies this
      ensures bits == if additive then old(bits) + CategoryIds(table, cat) else old(bits) - CategoryIds(table, cat)
    {
      var ok := SetUser(CategoryRule(additive, cat), table, hash);
    }

    /** ACLCountCategoryBitsForUser. */
    method CountCategoryBits(table: Table, category: string) returns (on: nat, off: nat)
      ensures on == CountOn(bits, table.commands, category) && off == CountOff(bits, table.commands, category)
    {
      on, off := 0, 0;
      for i := 0 to |table.commands|
        invariant on == CountOn(bits, table.commands[..i], category)
                  && off == CountOff(bits, table.commands[..i], category)
      {
        assert table.commands[..i + 1][..i] == table.commands[..i];
        var c := table.commands[i];
        if category in c.categories {
          if c.id in bits {
            on := on + 1;
          } else {
            off := off + 1;
          }
        }
      }
      assert table.commands[..|table.commands|] == table.commands;
    }

    /** The final pass. */
    method DescribeFixes(fake: UserRecord, table: Table) returns (rules: seq<Rule>)
      requires Sound(table) && fake != this
      modifies fake
      ensures rules == FixAllRules(Value(), old(fake.bits), table.commands)
      ensures fake.bits == FixAllBits(Value(), old(fake.bits), table.commands)
    {
      rules := [];
      for i := 0 to |table.commands|
        invariant rules == FixAllRules(Value(), old(fake.bits), table.commands[..i])
        invariant fake.bits == FixAllBits(Value(), old(fake.bits), table.commands[..i])
      {
        assert table.commands[..i + 1][..i] == table.commands[..i];
        var c := table.commands[i];
        var more := DescribeFix(fake, c);
        rules := rules + more;
      }
      assert table.commands[..|table.commands|] == table.commands;
    }

    method DescribeFix(fake: UserRecord, c: Command) returns (rules: seq<Rule>)
      requires fake != this && c.id < BITS
      modifies fake
      ensures rules == FixRules(Value(), old(fake.bits), c) && fake.bits == Fixed(Value(), old(fake.bits), c)
    {
      rules := [];
      var userBit, fakeBit := c.id in bits, c.id in fake.bits;
      if userBit != fakeBit {
        rules := [if userBit then AddCommand(c.name) else DelCommand(c.name)];
        fake.SetCommandBit(c.id, userBit);
      }
      if !userBit && c.id in subs {
        var named := subs[c.id];
        ghost var head := rules;
        for j := 0 to |named|
          invariant rules == head + SubRules(c.name, named[..j])
        {
          assert named[..j + 1][..j] == named[..j];
          rules := rules + [AddSub(c.name, named[j])];
        }
        assert named[..|named|] == named;
      }
    }
  }

  function SubsBelow(subs: map<nat, seq<string>>, j: nat): map<nat, seq<string>> {
    map id | id in subs && id < j :: subs[id]
  }

  lemma {:induction false} SubsBelowStep(subs: map<nat, seq<string>>, j: nat)
    ensures j !in SubsBelow(subs, j)
    ensures SubsBelow(subs, j + 1) == if j in subs then SubsBelow(subs, j)[j := subs[j]] else SubsBelow(subs, j)
  {
  }

  /** The commands of a category among the first i of the table. */
  function IdsBelow(table: Table, category: string, i: nat): set<nat>
    requires i <= |table.commands|
  {
    CategoryIds(Table(table.commands[..i], table.categories), category)
  }

  lemma {:induction false} CategoryIdsMore(table: Table, category: string, i: nat)
    requires i < |table.commands|
    ensures var c := table.commands[i];
            IdsBelow(table, category, i + 1)
            == IdsBelow(table, category, i) + if category in c.categories && !c.ofModule then {c.id} else {}
  {
    var less, more := table.commands[..i], table.commands[..i + 1];
    assert more == less + [table.commands[i]];
    var a := CategoryIds(Table(less, table.categories), category);
    var b := CategoryIds(Table(more, table.categories), category);
    forall id | id in a ensures id in b {
      var k :| 0 <= k < |less| && category in less[k].categories && !less[k].ofModule && less[k].id == id;
      assert more[k] == less[k];
    }
    if category in table.commands[i].categories && !table.commands[i].ofModule {
      assert more[i].id in b;
    }
  }

  /** One more bit on top of those already done. */
  lemma {:induction false} NoBits(u: User, value: bool)
    ensures ChangeBits(u, {}, value) == u
  {
    assert u.subs - {} == u.subs;
    assert u.bits + {} == u.bits && u.bits - {} == u.bits;
  }

  lemma {:induction false} OneBit(u: User, ids: set<nat>, id: nat, value: bool)
    ensures ChangeBits(ChangeBits(u, ids, value), {id}, value) == ChangeBits(u, ids + {id}, value)
  {
    assert u.subs - (ids + {id}) == u.subs - ids - {id};
    assert u.bits - (ids + {id}) == u.bits - ids - {id};
    assert u.bits + (ids + {id}) == u.bits + ids + {id};
  }
}
