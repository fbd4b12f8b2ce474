/** Access control lists (acl.c): a user is built by rules and printed back as
    rules. Rules are tokens here; `~*` is AllKeys, `+@all` AllCommands. */
module Acl {
  import opened Collections

  /** USER_COMMAND_BITS_COUNT; the last bit stands for future commands. */
  const BITS: nat := 1024
  const RESERVED: nat := 1023

  datatype Command = Command(name: string, id: nat, categories: set<string>, ofModule: bool)

  /** The command table in the order of its iterator, the categories in the
      order of ACLCommandCategories. */
  datatype Table = Table(commands: seq<Command>, categories: seq<string>)

  /** Fixed for the life of the rules: names and ids are unique, ids below the reserved bit. */
  predicate Sound(table: Table) {
    && (forall i, j | 0 <= i < j < |table.commands| ::
          table.commands[i].name != table.commands[j].name && table.commands[i].id != table.commands[j].id)
    && (forall i | 0 <= i < |table.commands| :: table.commands[i].id < RESERVED)
  }

  datatype User = User(
    enabled: bool, disabled: bool, allkeys: bool, allcommands: bool, nopass: bool,
    bits: set<nat>, subs: map<nat, seq<string>>, passwords: seq<string>, patterns: seq<string>)

  datatype Rule =
    | On | Off
    | AllKeys | ResetKeys | Pattern(pattern: string)
    | AllCommands | NoCommands
    | AddCommand(name: string) | DelCommand(name: string) | AddSub(name: string, sub: string)
    | AddCategory(category: string) | DelCategory(category: string)
    | NoPass | ResetPass
    | AddPass(pass: string) | DelPass(pass: string) | AddHash(hash: string) | DelHash(hash: string)
    | Reset | Nothing | Unknown

  datatype Error = Invalid | NoEntry | Busy | Exists | NoDevice | BadMessage

  datatype Outcome = Ok(user: User) | Err(error: Error)

  function Fresh(): User {
    User(false, true, false, false, false, {}, map[], [], [])
  }

  predicate IsBit(i: int) {
    0 <= i < BITS
  }

  function AllBits(): set<nat> {
    set i | 0 <= i < BITS && IsBit(i)
  }

  // ------------------------------------------------------ applying a rule

  predicate ValidHash(h: string) {
    |h| == 64 && forall i | 0 <= i < |h| :: '0' <= h[i] <= '9' || 'a' <= h[i] <= 'f'
  }

  /** isspace of any character, or a zero character. */
  predicate HasSpaces(s: string) {
    exists i :: 0 <= i < |s| && (s[i] == ' ' || '\t' <= s[i] <= '\r' || s[i] == '\0')
  }

  function LowerChar(c: char): char {
    if 'A' <= c <= 'Z' then c + 32 as char else c
  }

  function Lower(s: string): string {
    seq(|s|, i requires 0 <= i < |s| => LowerChar(s[i]))
  }

  predicate Contains(subs: seq<string>, sub: string) {
    exists i :: 0 <= i < |subs| && Lower(subs[i]) == Lower(sub)
  }

  function Find(commands: seq<Command>, name: string): Option<Command> {
    if commands == [] then None
    else if commands[|commands| - 1].name == name then Some(commands[|commands| - 1])
    else Find(commands[..|commands| - 1], name)
  }

  /** The commands a category rule touches; those of modules are left alone. */
  function CategoryIds(table: Table, category: string): set<nat> {
    set i | 0 <= i < |table.commands| && category in table.commands[i].categories && !table.commands[i].ofModule
      :: table.commands[i].id
  }

  function SetBits(u: User, ids: set<nat>): User {
    u.(bits := u.bits + ids, subs := u.subs - ids)
  }

  /** Clearing a bit also ends the shortcut of the ALLCOMMANDS flag. */
  function ClearBits(u: User, ids: set<nat>): User {
    u.(bits := u.bits - ids, subs := u.subs - ids, allcommands := u.allcommands && ids == {})
  }

  function ChangeBits(u: User, ids: set<nat>, value: bool): User {
    if value then SetBits(u, ids) else ClearBits(u, ids)
  }

  function WithSub(subs: map<nat, seq<string>>, id: nat, sub: string): map<nat, seq<string>> {
    var known := if id in subs then subs[id] else [];
    if Contains(known, sub) then subs else subs[id := known + [sub]]
  }

  function WithPassword(u: User, h: string): User {
    u.(passwords := if h in u.passwords then u.passwords else u.passwords + [h], nopass := false)
  }

  function WithoutPassword(u: User, h: string): Outcome {
    if h in u.passwords then Ok(u.(passwords := Without(u.passwords, h))) else Err(NoDevice)
  }

  function ApplyCommand(u: User, rule: Rule, table: Table): Outcome
    requires AboutOneCommand(rule)
  {
    match Find(table.commands, rule.name)
    case None => Err(NoEntry)
    case Some(c) =>
      if rule.AddCommand? then Ok(SetBits(u, {c.id}))
      else if rule.DelCommand? then Ok(ClearBits(u, {c.id}))
      else if rule.sub == "" then Err(Invalid)
      else if c.id in u.bits then Err(Busy)
      else Ok(u.(subs := WithSub(u.subs, c.id, rule.sub), allcommands := false))
  }

  function ApplyPattern(u: User, p: string): Outcome {
    if p == "*" then Ok(u.(allkeys := true, patterns := []))
    else if u.allkeys then Err(Exists)
    else if HasSpaces(p) then Err(Invalid)
    else Ok(u.(patterns := if p in u.patterns then u.patterns else u.patterns + [p]))
  }

  predicate AboutPasswords(rule: Rule) {
    rule.AddPass? || rule.AddHash? || rule.DelPass? || rule.DelHash? || rule.NoPass? || rule.ResetPass?
  }

  function ApplyPassword(u: User, rule: Rule, hash: string -> string): Outcome
    requires AboutPasswords(rule)
  {
    match rule
    case NoPass => Ok(u.(nopass := true, passwords := []))
    case ResetPass => Ok(u.(nopass := false, passwords := []))
    case AddPass(p) => Ok(WithPassword(u, hash(p)))
    case AddHash(h) => if ValidHash(h) then Ok(WithPassword(u, h)) else Err(BadMessage)
    case DelPass(p) => WithoutPassword(u, hash(p))
    case DelHash(h) => if ValidHash(h) then WithoutPassword(u, h) else Err(BadMessage)
  }

  predicate AboutOneCommand(rule: Rule) {
    rule.AddCommand? || rule.DelCommand? || rule.AddSub?
  }

  predicate AboutCategory(rule: Rule) {
    rule.AddCategory? || rule.DelCategory?
  }

  function ApplyCategory(u: User, rule: Rule, table: Table): Outcome
    requires AboutCategory(rule)
  {
    if rule.category !in table.categories then Err(NoEntry)
    else Ok(ChangeBits(u, CategoryIds(table, rule.category), rule.AddCategory?))
  }

  function ApplyFlags(u: User, rule: Rule): Outcome
    requires !AboutPasswords(rule) && !AboutOneCommand(rule) && !AboutCategory(rule)
  {
    match rule
    case On => Ok(u.(enabled := true, disabled := false))
    case Off => Ok(u.(enabled := false, disabled := true))
    case AllKeys => Ok(u.(allkeys := true, patterns := []))
    case ResetKeys => Ok(u.(allkeys := false, patterns := []))
    case Pattern(p) => ApplyPattern(u, p)
    case AllCommands => Ok(u.(bits := AllBits(), allcommands := true, subs := map[]))
    case NoCommands => Ok(u.(bits := {}, allcommands := false, subs := map[]))
    case Reset => Ok(Fresh())
    case Nothing => Ok(u)
    case Unknown => Err(Invalid)
  }

  /** ACLSetUser. `hash` is SHA-256 in hexadecimal. */
  function Apply(u: User, rule: Rule, table: Table, hash: string -> string): Outcome {
    if AboutPasswords(rule) then ApplyPassword(u, rule, hash)
    else if AboutOneCommand(rule) then ApplyCommand(u, rule, table)
    else if AboutCategory(rule) then ApplyCategory(u, rule, table)
    else ApplyFlags(u, rule)
  }

  function ApplyAll(u: User, rules: seq<Rule>, table: Table, hash: string -> string): Outcome {
    if rules == [] then Ok(u)
    else
      match ApplyAll(u, rules[..|rules| - 1], table, hash)
      case Ok(v) => Apply(v, rules[|rules| - 1], table, hash)
      case Err(e) => Err(e)
  }

  lemma {:induction false} ApplyAllConcat(u: User, a: seq<Rule>, b: seq<Rule>, table: Table, hash: string -> string)
    ensures ApplyAll(u, a + b, table, hash)
            == match ApplyAll(u, a, table, hash) case Ok(v) => ApplyAll(v, b, table, hash) case Err(e) => Err(e)
  {
    if b == [] {
      assert a + b == a;
    } else {
      assert (a + b)[..|a + b| - 1] == a + b[..|b| - 1];
      ApplyAllConcat(u, a, b[..|b| - 1], table, hash);
    }
  }

  lemma {:induction false} ApplyOne(u: User, rule: Rule, table: Table, hash: string -> string)
    ensures ApplyAll(u, [rule], table, hash) == Apply(u, rule, table, hash)
  {
    assert [rule][..|[rule]| - 1] == [];
  }

  // ------------------------------------------------------------ invariant

  predicate GoodPattern(p: string) {
    p != "*" && !HasSpaces(p)
  }

  predicate DistinctFolded(s: seq<string>) {
    forall i, j | 0 <= i < j < |s| :: Lower(s[i]) != Lower(s[j])
  }

  function Ids(commands: seq<Command>): set<nat> {
    set i | 0 <= i < |commands| :: commands[i].id
  }

  predicate SubsFit(u: User, table: Table) {
    && (u.subs.Keys <= Ids(table.commands)) && (u.subs.Keys !! u.bits)
    && (forall id | id in u.subs :: u.subs[id] != [] && "" !in u.subs[id] && DistinctFolded(u.subs[id]))
  }

  predicate BitsFit(u: User, table: Table) {
    && u.bits <= AllBits() && (u.allcommands ==> u.bits == AllBits())
    && (forall id | id in AllBits() && id !in Ids(table.commands) :: id in u.bits <==> RESERVED in u.bits)
  }

  /** What every user reachable by rules satisfies. */
  predicate Inv(u: User, table: Table) {
    u.enabled == !u.disabled && PasswordsFit(u) && PatternsFit(u) && BitsFit(u, table) && SubsFit(u, table)
  }

  predicate PasswordsFit(u: User) {
    (u.nopass ==> u.passwords == []) && Distinct(u.passwords) && (forall p | p in u.passwords :: ValidHash(p))
  }

  predicate PatternsFit(u: User) {
    (u.allkeys ==> u.patterns == []) && Distinct(u.patterns) && (forall p | p in u.patterns :: GoodPattern(p))
  }

  ghost predicate Hashes(hash: string -> string) {
    forall p :: ValidHash(hash(p))
  }

  lemma {:induction false} FindFinds(commands: seq<Command>, name: string)
    ensures match Find(commands, name)
            case None => forall i | 0 <= i < |commands| :: commands[i].name != name
            case Some(c) => c in commands && c.name == name && c.id in Ids(commands)
  {
    if commands != [] {
      var front, last := commands[..|commands| - 1], |commands| - 1;
      FindFinds(front, name);
      if commands[last].name != name {
        match Find(front, name)
        case None => assert forall i | 0 <= i < last :: commands[i] == front[i];
        case Some(c) =>
          var i :| 0 <= i < |front| && front[i] == c;
          assert commands[i] == c;
      }
    }
  }

  lemma {:induction false} CategoryIdsKnown(table: Table, category: string)
    ensures CategoryIds(table, category) <= Ids(table.commands)
  {
  }

  lemma {:induction false} BitsKept(u: User, table: Table, ids: set<nat>)
    requires Sound(table) && Inv(u, table) && ids <= Ids(table.commands)
    ensures Inv(SetBits(u, ids), table) && Inv(ClearBits(u, ids), table)
  {
    assert RESERVED !in ids;
    assert ids <= AllBits();
    assert u.subs - {} == u.subs && u.bits - {} == u.bits;
  }

  lemma {:induction false} SubKept(u: User, table: Table, id: nat, sub: string)
    requires Inv(u, table) && id in Ids(table.commands) && id !in u.bits && sub != "" && id in AllBits()
    ensures Inv(u.(subs := WithSub(u.subs, id, sub), allcommands := false), table)
  {
  }

  /** Rules about commands leave the rest of the user alone. */
  lemma {:induction false} CommandRuleKept(u: User, rule: Rule, table: Table)
    requires Sound(table) && Inv(u, table)
    requires AboutOneCommand(rule) && ApplyCommand(u, rule, table).Ok?
    ensures Inv(ApplyCommand(u, rule, table).user, table)
  {
    FindFinds(table.commands, rule.name);
    var id := Find(table.commands, rule.name).value.id;
    if rule.AddSub? {
      SubKept(u, table, id, rule.sub);
    } else {
      BitsKept(u, table, {id});
    }
  }

  lemma {:induction false} CategoryRuleKept(u: User, category: string, table: Table)
    requires Sound(table) && Inv(u, table)
    ensures Inv(SetBits(u, CategoryIds(table, category)), table)
            && Inv(ClearBits(u, CategoryIds(table, category)), table)
  {
    CategoryIdsKnown(table, category);
    BitsKept(u, table, CategoryIds(table, category));
  }

  lemma {:induction false} PasswordRuleKept(u: User, h: string)
    requires PasswordsFit(u)
    ensures ValidHash(h) ==> PasswordsFit(WithPassword(u, h))
    ensures h in u.passwords ==> PasswordsFit(u.(passwords := Without(u.passwords, h)))
  {
    WithoutKeeps(u.passwords, h);
  }

  lemma {:induction false} PatternRuleKept(u: User, p: string)
    requires PatternsFit(u) && ApplyPattern(u, p).Ok?
    ensures PatternsFit(ApplyPattern(u, p).user)
  {
  }

  lemma {:induction false} PasswordRulesKept(u: User, rule: Rule, table: Table, hash: string -> string)
    requires Hashes(hash) && Inv(u, table) && AboutPasswords(rule) && ApplyPassword(u, rule, hash).Ok?
    ensures Inv(ApplyPassword(u, rule, hash).user, table)
  {
    match rule
    case AddPass(p) => PasswordRuleKept(u, hash(p));
    case AddHash(h) => PasswordRuleKept(u, h);
    case DelPass(p) => PasswordRuleKept(u, hash(p));
    case DelHash(h) => PasswordRuleKept(u, h);
    case _ =>
  }

  lemma {:induction false} ApplyKeepsInv(u: User, rule: Rule, table: Table, hash: string -> string)
    requires Sound(table) && Hashes(hash) && Inv(u, table) && Apply(u, rule, table, hash).Ok?
    ensures Inv(Apply(u, rule, table, hash).user, table)
  {
    if AboutPasswords(rule) {
      PasswordRulesKept(u, rule, table, hash);
    } else if AboutOneCommand(rule) {
      CommandRuleKept(u, rule, table);
    } else if AboutCategory(rule) {
      CategoryRuleKept(u, rule.category, table);
    } else {
      FlagRuleKept(u, rule, table);
    }
  }

  lemma {:induction false} FlagRuleKept(u: User, rule: Rule, table: Table)
    requires Inv(u, table) && !AboutPasswords(rule) && !AboutOneCommand(rule) && !AboutCategory(rule)
             && ApplyFlags(u, rule).Ok?
    ensures Inv(ApplyFlags(u, rule).user, table)
  {
    if rule.Pattern? {
      PatternRuleKept(u, rule.pattern);
    }
  }

  lemma {:induction false} ReachableInv(rules: seq<Rule>, table: Table, hash: string -> string)
    requires Sound(table) && Hashes(hash) && ApplyAll(Fresh(), rules, table, hash).Ok?
    ensures Inv(ApplyAll(Fresh(), rules, table, hash).user, table)
  {
    if rules != [] {
      var front := rules[..|rules| - 1];
      ReachableInv(front, table, hash);
      ApplyKeepsInv(ApplyAll(Fresh(), front, table, hash).user, rules[|rules| - 1], table, hash);
    }
  }

  // ------------------------------------------------------------- printing

  /** How many commands of a category the bits allow, and how many not. */
  function CountOn(bits: set<nat>, commands: seq<Command>, category: string): nat {
    if commands == [] then 0
    else
      var c := commands[|commands| - 1];
      CountOn(bits, commands[..|commands| - 1], category) + if category in c.categories && c.id in bits then 1 else 0
  }

  function CountOff(bits: set<nat>, commands: seq<Command>, category: string): nat {
    if commands == [] then 0
    else
      var c := commands[|commands| - 1];
      CountOff(bits, commands[..|commands| - 1], category) + if category in c.categories && c.id !in bits then 1 else 0
  }

  /** A category is printed when most of its commands call for it. */
  predicate Picked(bits: set<nat>, table: Table, additive: bool, category: string) {
    var on, off := CountOn(bits, table.commands, category), CountOff(bits, table.commands, category);
    (additive && on > off) || (!additive && off > on)
  }

  function CategoryRule(additive: bool, category: string): Rule {
    if additive then AddCategory(category) else DelCategory(category)
  }

  function CategoryRules(bits: set<nat>, table: Table, additive: bool, categories: seq<string>): seq<Rule> {
    if categories == [] then []
    else
      var cat := categories[|categories| - 1];
      CategoryRules(bits, table, additive, categories[..|categories| - 1])
      + if Picked(bits, table, additive, cat) then [CategoryRule(additive, cat)] else []
  }

  /** The bits of the fake user after the category rules. */
  function CategoryBits(bits: set<nat>, table: Table, additive: bool, categories: seq<string>): set<nat> {
    if categories == [] then (if additive then {} else AllBits())
    else
      var cat := categories[|categories| - 1];
      var before := CategoryBits(bits, table, additive, categories[..|categories| - 1]);
      if !Picked(bits, table, additive, cat) then before
      else if additive then before + CategoryIds(table, cat)
      else before - CategoryIds(table, cat)
  }

  function SubRules(name: string, subs: seq<string>): seq<Rule> {
    if subs == [] then [] else SubRules(name, subs[..|subs| - 1]) + [AddSub(name, subs[|subs| - 1])]
  }

  /** One round of the final pass: correct the bit, then name the subcommands. */
  function BitRules(u: User, fake: set<nat>, c: Command): seq<Rule> {
    if (c.id in u.bits) == (c.id in fake) then []
    else if c.id in u.bits then [AddCommand(c.name)] else [DelCommand(c.name)]
  }

  function FixRules(u: User, fake: set<nat>, c: Command): seq<Rule> {
    BitRules(u, fake, c)
    + (if c.id !in u.bits && c.id in u.subs then SubRules(c.name, u.subs[c.id]) else [])
  }

  /** The bits of the fake user after the round. */
  function Fixed(u: User, fake: set<nat>, c: Command): set<nat> {
    if c.id in u.bits then fake + {c.id} else fake - {c.id}
  }

  function FixAllBits(u: User, fake: set<nat>, commands: seq<Command>): set<nat> {
    if commands == [] then fake
    else Fixed(u, FixAllBits(u, fake, commands[..|commands| - 1]), commands[|commands| - 1])
  }

  function FixAllRules(u: User, fake: set<nat>, commands: seq<Command>): seq<Rule> {
    if commands == [] then []
    else
      var front, c := commands[..|commands| - 1], commands[|commands| - 1];
      FixAllRules(u, fake, front) + FixRules(u, FixAllBits(u, fake, front), c)
  }

  predicate Additive(u: User) {
    RESERVED !in u.bits
  }

  function FakeBits(u: User, table: Table): set<nat> {
    CategoryBits(u.bits, table, Additive(u), table.categories)
  }

  /** ACLDescribeUserCommandRules. */
  function CommandRules(u: User, table: Table): seq<Rule> {
    [if Additive(u) then NoCommands else AllCommands]
    + CategoryRules(u.bits, table, Additive(u), table.categories)
    + FixAllRules(u, FakeBits(u, table), table.commands)
  }

  function Flags(u: User): seq<Rule> {
    (if u.enabled then [On] else []) + (if u.disabled then [Off] else []) + (if u.nopass then [NoPass] else [])
  }

  function HashRules(passwords: seq<string>): seq<Rule> {
    seq(|passwords|, i requires 0 <= i < |passwords| => AddHash(passwords[i]))
  }

  function PatternRules(patterns: seq<string>): seq<Rule> {
    seq(|patterns|, i requires 0 <= i < |patterns| => Pattern(patterns[i]))
  }

  /** ACLDescribeUser. */
  function Describe(u: User, table: Table): seq<Rule> {
    Flags(u) + HashRules(u.passwords) + (if u.allkeys then [AllKeys] else PatternRules(u.patterns))
      + CommandRules(u, table)
  }

  // ----------------------------------------------------------- round trip

  /** Only bits of commands in the table are touched on the way. */
  lemma {:induction false} CategoryBitsOutside(bits: set<nat>, table: Table, additive: bool, categories: seq<string>)
    requires Sound(table)
    ensures CategoryBits(bits, table, additive, categories) <= AllBits()
    ensures forall id | id in AllBits() && id !in Ids(table.commands) ::
              id in CategoryBits(bits, table, additive, categories) <==> !additive
  {
    if categories != [] {
      CategoryBitsOutside(bits, table, additive, categories[..|categories| - 1]);
      CategoryIdsKnown(table, categories[|categories| - 1]);
      assert Ids(table.commands) <= AllBits();
    }
  }

  lemma {:induction false} IdsAppend(commands: seq<Command>)
    requires commands != []
    ensures Ids(commands) == Ids(commands[..|commands| - 1]) + {commands[|commands| - 1].id}
  {
    var front := commands[..|commands| - 1];
    assert commands == front + [commands[|commands| - 1]];
    assert forall i | 0 <= i < |front| :: front[i].id == commands[i].id;
    forall id | id in Ids(commands) ensures id in Ids(front) + {commands[|commands| - 1].id} {
      var i :| 0 <= i < |commands| && commands[i].id == id;
      if i < |front| {
        assert front[i].id == id;
      }
    }
    forall id | id in Ids(front) ensures id in Ids(commands) {
      var i :| 0 <= i < |front| && front[i].id == id;
      assert commands[i].id == id;
    }
    assert commands[|commands| - 1].id in Ids(commands);
  }

  /** The final pass leaves the user's bits in the table and the fake ones elsewhere. */
  lemma {:induction false} FixAllBitsMeans(u: User, fake: set<nat>, commands: seq<Command>)
    ensures forall id ::
              id in FixAllBits(u, fake, commands) <==> if id in Ids(commands) then id in u.bits else id in fake
  {
    if commands != [] {
      FixAllBitsMeans(u, fake, commands[..|commands| - 1]);
      IdsAppend(commands);
    }
  }

  /** The panic on a bitmap mismatch is unreachable. */
  lemma {:induction false} PredictedBitmapMatches(u: User, table: Table)
    requires Sound(table) && Inv(u, table)
    ensures FixAllBits(u, FakeBits(u, table), table.commands) == u.bits
  {
    CategoryBitsOutside(u.bits, table, Additive(u), table.categories);
    FixAllBitsMeans(u, FakeBits(u, table), table.commands);
    assert forall id | id in u.bits :: id in AllBits();
  }

  lemma {:induction false} FindAt(commands: seq<Command>, k: nat)
    requires k < |commands| && (forall i, j | 0 <= i < j < |commands| :: commands[i].name != commands[j].name)
    ensures Find(commands, commands[k].name) == Some(commands[k])
  {
    if k < |commands| - 1 {
      var front := commands[..|commands| - 1];
      assert front[k] == commands[k];
      FindAt(front, k);
    }
  }

  lemma {:induction false} DistinctLast(s: seq<string>)
    requires s != [] && Distinct(s)
    ensures s == s[..|s| - 1] + [s[|s| - 1]] && s[|s| - 1] !in s[..|s| - 1] && Distinct(s[..|s| - 1])
  {
  }

  lemma {:induction false} HashReplayed(v: User, h: string, table: Table, hash: string -> string)
    requires !v.nopass && ValidHash(h) && h !in v.passwords
    ensures Apply(v, AddHash(h), table, hash) == Ok(v.(passwords := v.passwords + [h]))
  {
  }

  lemma {:induction false} HashesReplayed(u: User, passwords: seq<string>, table: Table, hash: string -> string)
    requires u.passwords == [] && !u.nopass && Distinct(passwords) && (forall p | p in passwords :: ValidHash(p))
    ensures ApplyAll(u, HashRules(passwords), table, hash) == Ok(u.(passwords := passwords))
  {
    if passwords != [] {
      var front, last := passwords[..|passwords| - 1], passwords[|passwords| - 1];
      DistinctLast(passwords);
      HashesReplayed(u, front, table, hash);
      assert HashRules(passwords) == HashRules(front) + [AddHash(last)];
      ApplyAllConcat(u, HashRules(front), [AddHash(last)], table, hash);
      ApplyOne(u.(passwords := front), AddHash(last), table, hash);
      HashReplayed(u.(passwords := front), last, table, hash);
    }
  }

  lemma {:induction false} PatternReplayed(v: User, p: string, table: Table, hash: string -> string)
    requires !v.allkeys && GoodPattern(p) && p !in v.patterns
    ensures Apply(v, Pattern(p), table, hash) == Ok(v.(patterns := v.patterns + [p]))
  {
  }

  lemma {:induction false} PatternsReplayed(u: User, patterns: seq<string>, table: Table, hash: string -> string)
    requires u.patterns == [] && !u.allkeys && Distinct(patterns) && (forall p | p in patterns :: GoodPattern(p))
    ensures ApplyAll(u, PatternRules(patterns), table, hash) == Ok(u.(patterns := patterns))
  {
    if patterns != [] {
      var front, last := patterns[..|patterns| - 1], patterns[|patterns| - 1];
      DistinctLast(patterns);
      PatternsReplayed(u, front, table, hash);
      assert PatternRules(patterns) == PatternRules(front) + [Pattern(last)];
      ApplyAllConcat(u, PatternRules(front), [Pattern(last)], table, hash);
      ApplyOne(u.(patterns := front), Pattern(last), table, hash);
      PatternReplayed(u.(patterns := front), last, table, hash);
    }
  }

  /** The state of the reloaded user with command rights only partly restored. */
  function Partly(u: User, bits: set<nat>, subs: map<nat, seq<string>>, allcommands: bool): User {
    u.(bits := bits, subs := subs, allcommands := allcommands)
  }

  /** The ALLCOMMANDS flag after the category rules. */
  predicate CategoryAll(bits: set<nat>, table: Table, additive: bool, categories: seq<string>) {
    if categories == [] then !additive
    else
      && CategoryAll(bits, table, additive, categories[..|categories| - 1])
      && (Picked(bits, table, additive, categories[|categories| - 1])
          ==> CategoryIds(table, categories[|categories| - 1]) == {})
  }

  lemma {:induction false} CategoriesReplayed(u: User, bits: set<nat>, table: Table, additive: bool,
                                              categories: seq<string>, hash: string -> string)
    requires forall c | c in categories :: c in table.categories
    ensures ApplyAll(Partly(u, if additive then {} else AllBits(), map[], !additive),
                     CategoryRules(bits, table, additive, categories), table, hash)
            == Ok(Partly(u, CategoryBits(bits, table, additive, categories), map[],
                         CategoryAll(bits, table, additive, categories)))
  {
    if categories != [] {
      var start := Partly(u, if additive then {} else AllBits(), map[], !additive);
      var front, cat := categories[..|categories| - 1], categories[|categories| - 1];
      CategoriesReplayed(u, bits, table, additive, front, hash);
      var v := Partly(u, CategoryBits(bits, table, additive, front), map[], CategoryAll(bits, table, additive, front));
      if Picked(bits, table, additive, cat) {
        ApplyAllConcat(start, CategoryRules(bits, table, additive, front), [CategoryRule(additive, cat)], table, hash);
        ApplyOne(v, CategoryRule(additive, cat), table, hash);
        CategoryReplayed(v, table, additive, cat, hash);
        AdditiveNeverAll(bits, table, front);
      } else {
        assert CategoryRules(bits, table, additive, categories) == CategoryRules(bits, table, additive, front);
      }
    }
  }

  lemma {:induction false} CategoryReplayed(v: User, table: Table, additive: bool, cat: string, hash: string -> string)
    requires cat in table.categories && v.subs == map[]
    ensures var ids := CategoryIds(table, cat);
            Apply(v, CategoryRule(additive, cat), table, hash)
            == Ok(if additive then v.(bits := v.bits + ids)
                  else v.(bits := v.bits - ids, allcommands := v.allcommands && ids == {}))
  {
    assert v.subs - CategoryIds(table, cat) == v.subs;
  }

  lemma {:induction false} AdditiveNeverAll(bits: set<nat>, table: Table, categories: seq<string>)
    ensures !CategoryAll(bits, table, true, categories)
  {
    if categories != [] {
      AdditiveNeverAll(bits, table, categories[..|categories| - 1]);
    }
  }

  // The final pass.

  /** The subcommands of the commands in the list. */
  function SubsOf(subs: map<nat, seq<string>>, commands: seq<Command>): map<nat, seq<string>> {
    map id | id in subs && id in Ids(commands) :: subs[id]
  }

  lemma {:induction false} SubReplayed(v: User, table: Table, k: nat, known: seq<string>, sub: string,
                                       hash: string -> string)
    requires Sound(table) && k < |table.commands| && table.commands[k].id !in v.bits && sub != ""
             && !Contains(known, sub)
    requires known == if table.commands[k].id in v.subs then v.subs[table.commands[k].id] else []
    ensures var c := table.commands[k];
            Apply(v, AddSub(c.name, sub), table, hash)
              == Ok(v.(subs := v.subs[c.id := known + [sub]], allcommands := false))
  {
    FindAt(table.commands, k);
  }

  lemma {:induction false} LastIsNew(subs: seq<string>)
    requires subs != [] && DistinctFolded(subs)
    ensures !Contains(subs[..|subs| - 1], subs[|subs| - 1])
  {
    assert forall i | 0 <= i < |subs| - 1 :: Lower(subs[i]) != Lower(subs[|subs| - 1]);
  }

  lemma {:induction false} SubsReplayed(u: User, table: Table, k: nat, subs: seq<string>, hash: string -> string)
    requires Sound(table) && k < |table.commands| && table.commands[k].id !in u.bits && table.commands[k].id !in u.subs
    requires subs != [] && DistinctFolded(subs) && "" !in subs
    ensures var c := table.commands[k];
            ApplyAll(u, SubRules(c.name, subs), table, hash)
              == Ok(u.(subs := u.subs[c.id := subs], allcommands := false))
    decreases |subs|
  {
    var c, front, last := table.commands[k], subs[..|subs| - 1], subs[|subs| - 1];
    assert subs == front + [last];
    LastIsNew(subs);
    ApplyAllConcat(u, SubRules(c.name, front), [AddSub(c.name, last)], table, hash);
    var v := if front == [] then u else u.(subs := u.subs[c.id := front], allcommands := false);
    if front != [] {
      SubsReplayed(u, table, k, front, hash);
    }
    ApplyOne(v, AddSub(c.name, last), table, hash);
    SubReplayed(v, table, k, front, last, hash);
    assert v.subs[c.id := subs] == u.subs[c.id := subs];
  }

  /** The ALLCOMMANDS flag after one round. */
  predicate FixKeepsAll(u: User, fake: set<nat>, c: Command) {
    !(c.id in fake && c.id !in u.bits) && !(c.id !in u.bits && c.id in u.subs)
  }

  /** One round of the final pass, replayed: the bit and the subcommands of the
      command become the user's. */
  lemma {:induction false} FixReplayed(u: User, v: User, table: Table, k: nat, hash: string -> string)
    requires Sound(table) && k < |table.commands| && SubsFit(u, table) && table.commands[k].id !in v.subs
    ensures var c := table.commands[k];
            ApplyAll(v, FixRules(u, v.bits, c), table, hash)
            == Ok(v.(bits := Fixed(u, v.bits, c),
                     subs := if c.id in u.subs then v.subs[c.id := u.subs[c.id]] else v.subs,
                     allcommands := v.allcommands && FixKeepsAll(u, v.bits, c)))
  {
    var c := table.commands[k];
    BitReplayed(u, v, table, k, hash);
    if c.id !in u.bits && c.id in u.subs {
      var w := v.(bits := Fixed(u, v.bits, c), allcommands := v.allcommands && !(c.id in v.bits && c.id !in u.bits));
      SubsAfterBit(u, v, w, table, k, hash);
    } else {
      assert FixRules(u, v.bits, c) == BitRules(u, v.bits, c);
    }
  }

  lemma {:induction false} SubsAfterBit(u: User, v: User, w: User, table: Table, k: nat, hash: string -> string)
    requires Sound(table) && k < |table.commands| && SubsFit(u, table)
    requires table.commands[k].id !in u.bits && table.commands[k].id in u.subs
    requires ApplyAll(v, BitRules(u, v.bits, table.commands[k]), table, hash) == Ok(w)
    requires table.commands[k].id !in w.subs && table.commands[k].id !in w.bits
    ensures var c := table.commands[k];
            ApplyAll(v, FixRules(u, v.bits, c), table, hash)
              == Ok(w.(subs := w.subs[c.id := u.subs[c.id]], allcommands := false))
  {
    var c := table.commands[k];
    ApplyAllConcat(v, BitRules(u, v.bits, c), SubRules(c.name, u.subs[c.id]), table, hash);
    SubsReplayed(w, table, k, u.subs[c.id], hash);
  }

  lemma {:induction false} BitReplayed(u: User, v: User, table: Table, k: nat, hash: string -> string)
    requires Sound(table) && k < |table.commands| && table.commands[k].id !in v.subs
    ensures var c := table.commands[k];
            ApplyAll(v, BitRules(u, v.bits, c), table, hash)
            == Ok(v.(bits := Fixed(u, v.bits, c), allcommands := v.allcommands && !(c.id in v.bits && c.id !in u.bits)))
  {
    var c := table.commands[k];
    FindAt(table.commands, k);
    assert v.subs - {c.id} == v.subs;
    if (c.id in u.bits) == (c.id in v.bits) {
      assert Fixed(u, v.bits, c) == v.bits;
    } else if c.id in u.bits {
      ApplyOne(v, AddCommand(c.name), table, hash);
    } else {
      ApplyOne(v, DelCommand(c.name), table, hash);
    }
  }

  predicate FixAllKeepsAll(u: User, fake: set<nat>, commands: seq<Command>) {
    commands != [] ==>
      && FixAllKeepsAll(u, fake, commands[..|commands| - 1])
      && FixKeepsAll(u, FixAllBits(u, fake, commands[..|commands| - 1]), commands[|commands| - 1])
  }

  lemma {:induction false} SubsOfAppend(u: User, table: Table, k: nat)
    requires Sound(table) && k < |table.commands|
    ensures var front, c := table.commands[..k], table.commands[k];
            && c.id !in SubsOf(u.subs, front)
            && SubsOf(u.subs, table.commands[..k + 1])
               == if c.id in u.subs then SubsOf(u.subs, front)[c.id := u.subs[c.id]] else SubsOf(u.subs, front)
  {
    var front, c := table.commands[..k], table.commands[k];
    assert table.commands[..k + 1][..k] == front;
    IdsAppend(table.commands[..k + 1]);
    assert forall i | 0 <= i < k :: front[i].id != c.id;
  }

  lemma {:induction false} FixAllReplayed(u: User, v: User, table: Table, k: nat, hash: string -> string)
    requires Sound(table) && k <= |table.commands| && SubsFit(u, table) && v.subs == map[]
    ensures var commands := table.commands[..k];
            ApplyAll(v, FixAllRules(u, v.bits, commands), table, hash)
            == Ok(v.(bits := FixAllBits(u, v.bits, commands), subs := SubsOf(u.subs, commands),
                     allcommands := v.allcommands && FixAllKeepsAll(u, v.bits, commands)))
    decreases k
  {
    if k == 0 {
      assert SubsOf(u.subs, []) == map[];
    } else {
      var front, c := table.commands[..k - 1], table.commands[k - 1];
      assert table.commands[..k][..k - 1] == front;
      FixAllReplayed(u, v, table, k - 1, hash);
      var w := v.(bits := FixAllBits(u, v.bits, front), subs := SubsOf(u.subs, front),
                  allcommands := v.allcommands && FixAllKeepsAll(u, v.bits, front));
      SubsOfAppend(u, table, k - 1);
      FixReplayed(u, w, table, k - 1, hash);
      ApplyAllConcat(v, FixAllRules(u, v.bits, front), FixRules(u, w.bits, c), table, hash);
    }
  }

  lemma {:induction false} CommandsReplayed(u: User, v: User, table: Table, hash: string -> string)
    requires Sound(table) && Inv(u, table)
    ensures ApplyAll(v, CommandRules(u, table), table, hash)
            == Ok(Partly(v, u.bits, u.subs,
                         CategoryAll(u.bits, table, Additive(u), table.categories)
                           && FixAllKeepsAll(u, FakeBits(u, table), table.commands)))
  {
    var w := Partly(v, FakeBits(u, table), map[], CategoryAll(u.bits, table, Additive(u), table.categories));
    var head := [if Additive(u) then NoCommands else AllCommands]
      + CategoryRules(u.bits, table, Additive(u), table.categories);
    ApplyAllConcat(v, head, FixAllRules(u, FakeBits(u, table), table.commands), table, hash);
    HeadReplayed(u, v, table, hash);
    assert table.commands[..|table.commands|] == table.commands;
    FixAllReplayed(u, w, table, |table.commands|, hash);
    PredictedBitmapMatches(u, table);
    assert SubsOf(u.subs, table.commands) == u.subs;
  }

  lemma {:induction false} HeadReplayed(u: User, v: User, table: Table, hash: string -> string)
    ensures ApplyAll(v, [if Additive(u) then NoCommands else AllCommands]
                        + CategoryRules(u.bits, table, Additive(u), table.categories), table, hash)
            == Ok(Partly(v, FakeBits(u, table), map[], CategoryAll(u.bits, table, Additive(u), table.categories)))
  {
    var first := if Additive(u) then NoCommands else AllCommands;
    ApplyAllConcat(v, [first], CategoryRules(u.bits, table, Additive(u), table.categories), table, hash);
    ApplyOne(v, first, table, hash);
    CategoriesReplayed(v, u.bits, table, Additive(u), table.categories, hash);
  }

  lemma {:induction false} NoneOff(bits: set<nat>, commands: seq<Command>, category: string)
    requires forall i | 0 <= i < |commands| :: commands[i].id in bits
    ensures CountOff(bits, commands, category) == 0
  {
    if commands != [] {
      NoneOff(bits, commands[..|commands| - 1], category);
    }
  }

  lemma {:induction false} FullNeedsNoCategory(table: Table, categories: seq<string>)
    requires Sound(table)
    ensures CategoryAll(AllBits(), table, false, categories)
  {
    if categories != [] {
      FullNeedsNoCategory(table, categories[..|categories| - 1]);
      NoneOff(AllBits(), table.commands, categories[|categories| - 1]);
    }
  }

  lemma {:induction false} FullNeedsNoFix(u: User, fake: set<nat>, commands: seq<Command>)
    requires forall i | 0 <= i < |commands| :: commands[i].id in u.bits
    ensures FixAllKeepsAll(u, fake, commands)
  {
    if commands != [] {
      FullNeedsNoFix(u, fake, commands[..|commands| - 1]);
    }
  }

  lemma {:induction false} KeysReplayed(u: User, v: User, table: Table, hash: string -> string)
    requires Inv(u, table) && v.patterns == [] && !v.allkeys
    ensures ApplyAll(v, if u.allkeys then [AllKeys] else PatternRules(u.patterns), table, hash)
            == Ok(v.(allkeys := u.allkeys, patterns := u.patterns))
  {
    if u.allkeys {
      ApplyOne(v, AllKeys, table, hash);
    } else {
      PatternsReplayed(v, u.patterns, table, hash);
    }
  }

  lemma {:induction false} PasswordsReplayed(u: User, v: User, table: Table, hash: string -> string)
    requires Inv(u, table) && v.passwords == [] && v.nopass == u.nopass
    ensures ApplyAll(v, HashRules(u.passwords), table, hash) == Ok(v.(passwords := u.passwords))
  {
    if !u.nopass {
      HashesReplayed(v, u.passwords, table, hash);
    }
  }

  lemma {:induction false} FlagsReplayed(u: User, v: User, table: Table, hash: string -> string)
    requires u.enabled == !u.disabled && !v.nopass && v.passwords == []
    ensures ApplyAll(v, Flags(u), table, hash)
            == Ok(v.(enabled := u.enabled, disabled := u.disabled, nopass := u.nopass))
  {
    var first := if u.enabled then On else Off;
    var w := v.(enabled := u.enabled, disabled := u.disabled);
    assert Apply(v, first, table, hash) == Ok(w);
    assert Apply(w, NoPass, table, hash) == Ok(w.(nopass := true));
    OneOrTwo(v, w, first, u.nopass, Flags(u), table, hash);
  }

  lemma {:induction false} OneOrTwo(v: User, w: User, a: Rule, two: bool, rules: seq<Rule>, table: Table,
                                    hash: string -> string)
    requires rules == [a] + (if two then [NoPass] else []) && Apply(v, a, table, hash) == Ok(w)
    ensures ApplyAll(v, rules, table, hash) == if two then Apply(w, NoPass, table, hash) else Ok(w)
  {
    if two {
      TwoRules(v, a, NoPass, table, hash);
    } else {
      assert rules == [a];
      ApplyOne(v, a, table, hash);
    }
  }

  lemma {:induction false} TwoRules(u: User, a: Rule, b: Rule, table: Table, hash: string -> string)
    ensures ApplyAll(u, [a] + [b], table, hash)
            == match Apply(u, a, table, hash) case Ok(v) => Apply(v, b, table, hash) case Err(e) => Err(e)
  {
    ApplyAllConcat(u, [a], [b], table, hash);
    ApplyOne(u, a, table, hash);
    if Apply(u, a, table, hash).Ok? {
      ApplyOne(Apply(u, a, table, hash).user, b, table, hash);
    }
  }

  lemma {:induction false} DescribeReplayed(u: User, table: Table, hash: string -> string)
    requires Sound(table) && Inv(u, table)
    ensures ApplyAll(Fresh(), Describe(u, table), table, hash)
            == Ok(u.(allcommands := CategoryAll(u.bits, table, Additive(u), table.categories)
                                    && FixAllKeepsAll(u, FakeBits(u, table), table.commands)))
  {
    var a := Flags(u);
    var b := HashRules(u.passwords);
    var c := if u.allkeys then [AllKeys] else PatternRules(u.patterns);
    var d := CommandRules(u, table);
    var v1 := Fresh().(enabled := u.enabled, disabled := u.disabled, nopass := u.nopass);
    var v2 := v1.(passwords := u.passwords);
    var v3 := v2.(allkeys := u.allkeys, patterns := u.patterns);
    FlagsReplayed(u, Fresh(), table, hash);
    ApplyAllConcat(Fresh(), a, b, table, hash);
    PasswordsReplayed(u, v1, table, hash);
    ApplyAllConcat(Fresh(), a + b, c, table, hash);
    KeysReplayed(u, v2, table, hash);
    ApplyAllConcat(Fresh(), a + b + c, d, table, hash);
    CommandsReplayed(u, v3, table, hash);
  }

  /** Printing and reloading: the printed rules all apply to a fresh user and
      restore everything; only the ALLCOMMANDS flag may change, and it is then
      set exactly when every bit is. */
  lemma {:induction false} RoundTrip(u: User, table: Table, hash: string -> string)
    requires Sound(table) && Hashes(hash) && Inv(u, table)
    ensures ApplyAll(Fresh(), Describe(u, table), table, hash) == Ok(u.(allcommands := u.bits == AllBits()))
  {
    DescribeReplayed(u, table, hash);
    ReachableInv(Describe(u, table), table, hash);
    if u.bits == AllBits() {
      assert forall i | 0 <= i < |table.commands| :: IsBit(table.commands[i].id);
      FullNeedsNoCategory(table, table.categories);
      FullNeedsNoFix(u, FakeBits(u, table), table.commands);
    }
  }

  /** For users as rules make them. */
  lemma {:induction false} ReachableRoundTrip(rules: seq<Rule>, table: Table, hash: string -> string)
    requires Sound(table) && Hashes(hash) && ApplyAll(Fresh(), rules, table, hash).Ok?
    ensures var u := ApplyAll(Fresh(), rules, table, hash).user;
            ApplyAll(Fresh(), Describe(u, table), table, hash) == Ok(u.(allcommands := u.bits == AllBits()))
  {
    ReachableInv(rules, table, hash);
    RoundTrip(ApplyAll(Fresh(), rules, table, hash).user, table, hash);
  }

  // ------------------------------------------------------------- verdicts

  datatype Verdict = Allowed | DeniedCommand | DeniedKey

  predicate MayRun(u: User, id: nat, isAuth: bool, argv: seq<string>) {
    u.allcommands || isAuth || id in u.bits || (|argv| >= 2 && id in u.subs && Contains(u.subs[id], argv[1]))
  }

  predicate Matches(patterns: seq<string>, key: string, glob: (string, string) -> bool) {
    exists i :: 0 <= i < |patterns| && glob(patterns[i], key)
  }

  /** ACLCheckCommandPerm: `keys` are the keys of the command (none if it has no
      key arguments), `glob` is stringmatchlen. */
  function Check(u: User, id: nat, isAuth: bool, argv: seq<string>, keys: seq<string>,
                 glob: (string, string) -> bool): Verdict {
    if !MayRun(u, id, isAuth, argv) then DeniedCommand
    else if u.allkeys || forall i | 0 <= i < |keys| :: Matches(u.patterns, keys[i], glob) then Allowed
    else DeniedKey
  }

  /** A reloaded user may do exactly what the printed one may, for every command
      with an id in the bitmap. */
  lemma {:induction false} SameVerdicts(u: User, table: Table, hash: string -> string, id: nat, isAuth: bool,
                                        argv: seq<string>, keys: seq<string>, glob: (string, string) -> bool)
    requires Sound(table) && Hashes(hash) && Inv(u, table) && id < BITS
    ensures ApplyAll(Fresh(), Describe(u, table), table, hash).Ok?
    ensures Check(ApplyAll(Fresh(), Describe(u, table), table, hash).user, id, isAuth, argv, keys, glob)
            == Check(u, id, isAuth, argv, keys, glob)
  {
    RoundTrip(u, table, hash);
    assert IsBit(id);
  }

  /** Beyond the bitmap the flag decides, and there the verdict changes exactly
      for users that hold every bit without the flag. */
  lemma {:induction false} BeyondTheBitmap(u: User, table: Table, hash: string -> string, id: nat, argv: seq<string>)
    requires Sound(table) && Hashes(hash) && Inv(u, table) && id >= BITS
    ensures ApplyAll(Fresh(), Describe(u, table), table, hash).Ok?
    ensures MayRun(ApplyAll(Fresh(), Describe(u, table), table, hash).user, id, false, argv)
            != MayRun(u, id, false, argv)
            <==> u.bits == AllBits() && !u.allcommands
  {
    RoundTrip(u, table, hash);
    assert id !in AllBits() && id !in Ids(table.commands);
  }

  const GET := Command("get", 1, {}, false)

  /** After +@all -get +get a user has every bit but not the flag: a command
      beyond the bitmap is denied, and allowed once the user is reloaded. */
  lemma {:induction false} FlagNotRegained(hash: string -> string, id: nat, argv: seq<string>)
    requires Hashes(hash) && id >= BITS
    ensures var table := Table([GET], []);
            var made := ApplyAll(Fresh(), [AllCommands, DelCommand("get"), AddCommand("get")], table, hash);
            && made.Ok? && !MayRun(made.user, id, false, argv)
            && var again := ApplyAll(Fresh(), Describe(made.user, table), table, hash);
               again.Ok? && MayRun(again.user, id, false, argv)
  {
    var table := Table([GET], []);
    var rules := [AllCommands, DelCommand("get"), AddCommand("get")];
    FlaglessUser(hash);
    ReachableInv(rules, table, hash);
    BeyondTheBitmap(ApplyAll(Fresh(), rules, table, hash).user, table, hash, id, argv);
    assert id !in AllBits();
  }

  lemma {:induction false} FlaglessUser(hash: string -> string)
    ensures ApplyAll(Fresh(), [AllCommands, DelCommand("get"), AddCommand("get")], Table([GET], []), hash)
            == Ok(Fresh().(bits := AllBits()))
  {
    var table := Table([GET], []);
    var a, b, c := AllCommands, DelCommand("get"), AddCommand("get");
    var u := Fresh().(bits := AllBits() - {1});
    assert Find([GET], "get") == Some(GET);
    assert IsBit(1);
    assert AllBits() - {1} + {1} == AllBits();
    assert Apply(Fresh(), a, table, hash) == Ok(Fresh().(bits := AllBits(), allcommands := true));
    ThreeRules(Fresh(), a, b, c, table, hash);
  }

  lemma {:induction false} ThreeRules(u: User, a: Rule, b: Rule, c: Rule, table: Table, hash: string -> string)
    ensures ApplyAll(u, [a, b, c], table, hash)
            == match Apply(u, a, table, hash)
               case Err(e) => Err(e)
               case Ok(v) =>
                 match Apply(v, b, table, hash)
                 case Err(e) => Err(e)
                 case Ok(w) => Apply(w, c, table, hash)
  {
    assert [a, b, c][..2] == [a, b] && [a, b][..1] == [a];
    ApplyOne(u, a, table, hash);
  }
}
