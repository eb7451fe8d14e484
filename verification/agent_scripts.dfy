/**
 * The bulk account-creation scripts, one per contracting company: how a
 * username is derived from an agent's names, how it is made unique against
 * the usernames already taken, how the initial password is formed, and the
 * main loop that records each new username so that one run never hands out
 * the same name twice.
 */
module AgentScripts {
  import opened Wrappers
  import opened Text

  /** The six scripts; they differ only in name cleaning, password prefix and e-mail domain. */
  datatype Script = Azing | Azing1 | Cafor | Nbig | Yessimo | IvoirGardiennage

  /** One row of a script's hard-coded list: `prenom`/`first_name` and `nom`/`last_name`. */
  datatype Agent = Agent(firstName: string, lastName: string)

  /** What the main loop creates for the agent at 1-based position `index`. */
  datatype Account = Account(index: nat, username: string, password: string, email: string)

  /** `.replace("'", "").replace("-", "")`. */
  function StripQuoteDash(s: string): (r: string)
    ensures '\'' !in r && '-' !in r
    ensures forall c :: c in r <==> c in s && c != '\'' && c != '-'
  {
    Remove(Remove(s, '\''), '-')
  }

  /** `.lower().replace("'", "").replace("-", "").replace(".", "")`. */
  function CleanWord(w: string): (r: string)
    ensures '\'' !in r && '-' !in r && '.' !in r
    ensures forall c :: c in r ==> !IsUpper(c)
    ensures forall c :: c in r ==> c in Lower(w)
  {
    Remove(StripQuoteDash(Lower(w)), '.')
  }

  /** The Nbig and Yessimo cleaning: lower-cased, quotes and dashes removed, dots kept. */
  function CleanKeepDot(w: string): (r: string)
    ensures '\'' !in r && '-' !in r
    ensures forall c :: c in r ==> !IsUpper(c)
    ensures forall c :: c in Lower(w) && c != '\'' && c != '-' ==> c in r
  {
    StripQuoteDash(Lower(w))
  }

  /**
   * The part of the username before the dot, or `None` where `split()[0]`
   * fails. Azing1 replaces a first word that cleans to 'nee' by the second
   * word, cleaned; when there is no second word it keeps the first word
   * only lower-cased, so its quotes, dashes and dots stay.
   */
  function GivenName(script: Script, firstName: string): (r: Option<string>)
    ensures r.Some? <==> FirstWord(firstName).Some?
  {
    var first := FirstWord(firstName);
    if first.None? then None
    else if script == Nbig || script == Yessimo then Some(CleanKeepDot(first.value))
    else if script == Azing1 && CleanWord(first.value) == "nee" then
      var parts := Split(firstName);
      if |parts| > 1 then Some(CleanWord(parts[1])) else Some(Lower(parts[0]))
    else Some(CleanWord(first.value))
  }

  /** Lower-casing a word keeps it free of whitespace. */
  lemma LowerWord(w: string)
    requires IsWord(w)
    ensures forall c :: c in Lower(w) ==> !IsUpper(c) && !IsSpace(c)
  {
    forall c | c in Lower(w)
      ensures !IsUpper(c) && !IsSpace(c)
    {
      var i :| 0 <= i < |w| && Lower(w)[i] == c;
    }
  }

  /** The given name is lower case, holds no whitespace, and only Azing1 can leave a quote or a dash in it. */
  lemma GivenNameCharacters(script: Script, firstName: string)
    ensures var r := GivenName(script, firstName);
      && (r.Some? ==> forall c :: c in r.value ==> !IsUpper(c) && !IsSpace(c))
      && (r.Some? && script != Azing1 ==> '\'' !in r.value && '-' !in r.value)
      && (r.Some? && script != Azing1 && script != Yessimo && script != Nbig ==> '.' !in r.value)
  {
    var first := FirstWord(firstName);
    if first.Some? {
      var w := first.value;
      if script == Nbig || script == Yessimo {
        LowerWord(w);
        assert GivenName(script, firstName) == Some(CleanKeepDot(w));
      } else if script == Azing1 && CleanWord(w) == "nee" {
        var parts := Split(firstName);
        assert parts[0] in parts;
        if |parts| > 1 {
          assert parts[1] in parts;
          LowerWord(parts[1]);
          assert GivenName(script, firstName) == Some(CleanWord(parts[1]));
        } else {
          LowerWord(parts[0]);
          assert GivenName(script, firstName) == Some(Lower(parts[0]));
        }
      } else {
        LowerWord(w);
        assert GivenName(script, firstName) == Some(CleanWord(w));
      }
    }
  }

  /**
   * The part after the dot: for Nbig the whole last name lower-cased with
   * quotes and dashes removed, for the others the last name's first word
   * cleaned like the given name.
   */
  function FamilyName(script: Script, lastName: string): (r: Option<string>)
    ensures r.Some? <==> script == Nbig || FirstWord(lastName).Some?
  {
    if script == Nbig then Some(CleanKeepDot(lastName))
    else
      var last := FirstWord(lastName);
      if last.None? then None
      else if script == Yessimo then Some(CleanKeepDot(last.value))
      else Some(CleanWord(last.value))
  }

  /** The family name is lower case without quotes or dashes; only Nbig's can hold whitespace, only Nbig's and Yessimo's a dot. */
  lemma FamilyNameCharacters(script: Script, lastName: string)
    ensures var r := FamilyName(script, lastName);
      && (r.Some? ==> '\'' !in r.value && '-' !in r.value)
      && (r.Some? ==> forall c :: c in r.value ==> !IsUpper(c))
      && (r.Some? && script != Nbig ==> forall c :: c in r.value ==> !IsSpace(c))
      && (r.Some? && script != Nbig && script != Yessimo ==> '.' !in r.value)
  {
    if script != Nbig && FirstWord(lastName).Some? {
      LowerWord(FirstWord(lastName).value);
    }
  }

  /**
   * The username a script derives before de-duplication, `given.family`,
   * or `None` where the script raises an `IndexError` because `split()[0]`
   * finds no word.
   */
  function BaseUsername(script: Script, a: Agent): (r: Option<string>)
    ensures r.Some? <==> GivenName(script, a.firstName).Some? && FamilyName(script, a.lastName).Some?
  {
    var given := GivenName(script, a.firstName);
    var family := FamilyName(script, a.lastName);
    if given.None? || family.None? then None
    else Some(given.value + "." + family.value)
  }

  /** The dot follows the given name, so the username splits back into its two parts. */
  lemma BaseUsernameParts(script: Script, a: Agent)
    requires BaseUsername(script, a).Some?
    ensures var r := BaseUsername(script, a).value;
      var g := GivenName(script, a.firstName).value;
      && |g| < |r| && r[|g|] == '.'
      && r[..|g|] == g && r[|g| + 1..] == FamilyName(script, a.lastName).value
  {
    DotJoin(GivenName(script, a.firstName).value, FamilyName(script, a.lastName).value);
  }

  /**
   * The username is lower case; outside Nbig it holds no whitespace and
   * outside Azing1 no quote or dash.
   */
  lemma BaseUsernameCharacters(script: Script, a: Agent)
    requires BaseUsername(script, a).Some?
    ensures var r := BaseUsername(script, a).value;
      && (forall c :: c in r ==> !IsUpper(c))
      && (script != Nbig ==> forall c :: c in r ==> !IsSpace(c))
      && (script != Azing1 ==> '\'' !in r && '-' !in r)
  {
    var g := GivenName(script, a.firstName).value;
    var f := FamilyName(script, a.lastName).value;
    assert BaseUsername(script, a).value == g + "." + f;
    GivenNameCharacters(script, a.firstName);
    FamilyNameCharacters(script, a.lastName);
    DotJoinMembers(g, f);
  }

  /** For Azing, Cafor and Ivoir Gardiennage the separator is the username's only dot. */
  lemma BaseUsernameSingleDot(script: Script, a: Agent)
    requires script == Azing || script == Cafor || script == IvoirGardiennage
    requires BaseUsername(script, a).Some?
    ensures var r := BaseUsername(script, a).value;
      forall k :: 0 <= k < |r| && k != |GivenName(script, a.firstName).value| ==> r[k] != '.'
  {
    var g := GivenName(script, a.firstName).value;
    var f := FamilyName(script, a.lastName).value;
    assert '.' !in g by {
      GivenNameCharacters(script, a.firstName);
    }
    assert '.' !in f by {
      FamilyNameCharacters(script, a.lastName);
    }
    DotJoin(g, f);
    var r := g + "." + f;
    forall k | 0 <= k < |r| && k != |g|
      ensures r[k] != '.'
    {
      if k < |g| {
        assert r[k] == g[k] && g[k] in g;
      } else {
        assert r[k] == f[k - |g| - 1] && f[k - |g| - 1] in f;
      }
    }
  }

  /** Where the parts of `g.f` sit, and which characters it holds. */
  lemma DotJoin(g: string, f: string)
    ensures var r := g + "." + f;
      && |r| == |g| + 1 + |f| && r[|g|] == '.'
      && r[..|g|] == g && r[|g| + 1..] == f
      && (forall k :: 0 <= k < |g| ==> r[k] == g[k])
      && (forall k :: |g| < k < |r| ==> r[k] == f[k - |g| - 1])
      && (forall c :: c in r <==> c in g || c == '.' || c in f)
  {
    var r := g + "." + f;
    assert r[..|g|] == g;
    assert r[|g| + 1..] == f;
  }

  lemma DotJoinMembers(g: string, f: string)
    ensures forall c :: c in g + "." + f <==> c in g || c == '.' || c in f
  {
  }

  /** `f"{username}{i}"`. */
  function Suffixed(base: string, i: nat): (r: string)
    ensures |r| > |base| && r[..|base|] == base
  {
    base + NatToString(i)
  }

  /** Different suffixes give different names. */
  lemma SuffixedInjective(base: string, i: nat, j: nat)
    ensures Suffixed(base, i) == Suffixed(base, j) ==> i == j
  {
    if Suffixed(base, i) == Suffixed(base, j) {
      assert Suffixed(base, i)[|base|..] == NatToString(i);
      assert Suffixed(base, j)[|base|..] == NatToString(j);
      NatToStringInjective(i, j);
    }
  }

  /**
   * What `generate_username` promises: a name not yet taken, the base
   * itself when it is free, otherwise the base followed by the smallest
   * number from 2 up that gives a free name.
   */
  ghost predicate ChosenName(base: string, existing: set<string>, name: string) {
    && name !in existing
    && (base !in existing ==> name == base)
    && (base in existing ==>
          exists i: nat :: i >= 2 && name == Suffixed(base, i) && forall j: nat :: 2 <= j < i ==> Suffixed(base, j) in existing)
  }

  /** The promise leaves no choice: at most one name meets it. */
  lemma ChosenNameUnique(base: string, existing: set<string>, n1: string, n2: string)
    requires ChosenName(base, existing, n1) && ChosenName(base, existing, n2)
    ensures n1 == n2
  {
    if base in existing {
      var i1: nat :| i1 >= 2 && n1 == Suffixed(base, i1) && forall j: nat :: 2 <= j < i1 ==> Suffixed(base, j) in existing;
      var i2: nat :| i2 >= 2 && n2 == Suffixed(base, i2) && forall j: nat :: 2 <= j < i2 ==> Suffixed(base, j) in existing;
    }
  }

  /** `generate_username`'s de-duplication loop. */
  method GenerateUsername(base: string, existing: set<string>) returns (username: string)
    ensures ChosenName(base, existing, username)
  {
    if base !in existing {
      return base;
    }
    var i: nat := 2;
    ghost var tried: set<string> := {};
    while Suffixed(base, i) in existing
      invariant i >= 2
      invariant forall j: nat :: 2 <= j < i ==> Suffixed(base, j) in existing
      invariant tried <= existing && |tried| == i - 2
      invariant forall x :: x in tried ==> exists j: nat :: 2 <= j < i && x == Suffixed(base, j)
      decreases |existing| - |tried|
    {
      if Suffixed(base, i) in tried {
        var j: nat :| 2 <= j < i && Suffixed(base, i) == Suffixed(base, j);
        SuffixedInjective(base, i, j);
      }
      tried := tried + {Suffixed(base, i)};
      assert |tried| <= |existing| by {
        SubsetCardinality(tried, existing);
      }
      i := i + 1;
    }
    username := Suffixed(base, i);
  }

  /** A subset is no larger than its superset. */
  lemma SubsetCardinality<T>(a: set<T>, b: set<T>)
    requires a <= b
    ensures |a| <= |b|
  {
    assert b == a + (b - a);
  }

  /** The password prefix of each script. */
  function PasswordPrefix(script: Script): (p: string)
    ensures |p| == 5 && p[4] == '@'
  {
    match script
    case Azing => "Azin@"
    case Azing1 => "Azin@"
    case Cafor => "Cafo@"
    case Nbig => "Nbig@"
    case Yessimo => "Yess@"
    case IvoirGardiennage => "Ivoi@"
  }

  /**
   * The four-letter stem taken from the last name: for Nbig the first four
   * characters of `last_name.capitalize()`, for the others `capitalize()` of
   * the first four characters of the last name's first word with quotes
   * and dashes removed; `None` where `split()[0]` fails.
   */
  function PasswordStem(script: Script, lastName: string): (r: Option<string>)
    ensures r.Some? <==> script == Nbig || FirstWord(lastName).Some?
    ensures r.Some? ==> |r.value| <= 4
  {
    if script == Nbig then
      var c := Capitalize(lastName);
      Some(if |c| <= 4 then c else c[..4])
    else
      var w := FirstWord(lastName);
      if w.None? then None
      else
        var clean := StripQuoteDash(w.value);
        Some(Capitalize(if |clean| <= 4 then clean else clean[..4]))
  }

  /** The stem is capitalised: no lower-case first letter, no upper-case letter after it. */
  lemma PasswordStemCapitalised(script: Script, lastName: string)
    requires PasswordStem(script, lastName).Some?
    ensures var r := PasswordStem(script, lastName).value;
      && (r != [] ==> !IsLower(r[0]))
      && (forall i :: 0 < i < |r| ==> !IsUpper(r[i]))
  {
    var r := PasswordStem(script, lastName).value;
    if script == Nbig {
      var c := Capitalize(lastName);
      assert r == if |c| <= 4 then c else c[..4];
    } else {
      var clean := StripQuoteDash(FirstWord(lastName).value);
      assert r == Capitalize(if |clean| <= 4 then clean else clean[..4]);
    }
  }

  /** Outside Nbig the stem holds no quote or dash. */
  lemma PasswordStemNoMarks(script: Script, lastName: string)
    requires script != Nbig && PasswordStem(script, lastName).Some?
    ensures '\'' !in PasswordStem(script, lastName).value && '-' !in PasswordStem(script, lastName).value
  {
    var clean := StripQuoteDash(FirstWord(lastName).value);
    var four := if |clean| <= 4 then clean else clean[..4];
    assert forall c :: c in four ==> c in clean;
    var r := Capitalize(four);
    assert PasswordStem(script, lastName).value == r;
    forall c | c in r
      ensures c != '\'' && c != '-'
    {
      var i :| 0 <= i < |r| && r[i] == c;
      assert four[i] in four;
    }
  }

  /** `generate_password(nom, index)`: prefix, stem, and the index on at least two digits. */
  function Password(script: Script, lastName: string, index: nat): (r: Option<string>)
    ensures r.Some? <==> PasswordStem(script, lastName).Some?
    ensures r.Some? ==> 5 + |ZeroPad2(index)| <= |r.value| <= 9 + |ZeroPad2(index)|
    ensures r.Some? ==> r.value[..5] == PasswordPrefix(script)
    ensures r.Some? ==> r.value[5..|r.value| - |ZeroPad2(index)|] == PasswordStem(script, lastName).value
    ensures r.Some? ==> r.value == PasswordPrefix(script) + PasswordStem(script, lastName).value + ZeroPad2(index)
    ensures r.Some? ==>
              var digits := r.value[|r.value| - |ZeroPad2(index)|..];
              (forall i :: 0 <= i < |digits| ==> '0' <= digits[i] <= '9') && ParseDigits(digits) == index
  {
    var stem := PasswordStem(script, lastName);
    if stem.None? then None
    else
      var r := PasswordPrefix(script) + stem.value + ZeroPad2(index);
      assert r[..5] == PasswordPrefix(script);
      assert r[5..|r| - |ZeroPad2(index)|] == stem.value;
      assert r[|r| - |ZeroPad2(index)|..] == ZeroPad2(index);
      Some(r)
  }

  /** The e-mail domain each script gives its accounts. */
  function EmailDomain(script: Script): (d: string)
    ensures d != [] && '@' !in d
  {
    match script
    case Azing => "azing-ivoir.ci"
    case Azing1 => "azing-ivoir.ci"
    case Cafor => "cafor.ci"
    case Nbig => "nbig-securite.ci"
    case Yessimo => "yessimo.ci"
    case IvoirGardiennage => "ivoirgardiennage.ci"
  }

  /** Different usernames give different addresses on the same domain. */
  lemma EmailInjective(u1: string, u2: string, domain: string)
    ensures u1 + "@" + domain == u2 + "@" + domain ==> u1 == u2
  {
    if u1 + "@" + domain == u2 + "@" + domain {
      assert |u1| == |u2|;
      assert (u1 + "@" + domain)[..|u1|] == u1;
      assert (u2 + "@" + domain)[..|u2|] == u2;
    }
  }

  /** Accounts with distinct usernames on one domain have distinct addresses. */
  lemma EmailsDistinct(accounts: seq<Account>, domain: string)
    requires forall k :: 0 <= k < |accounts| ==> accounts[k].email == accounts[k].username + "@" + domain
    requires forall i, j :: 0 <= i < j < |accounts| ==> accounts[i].username != accounts[j].username
    ensures forall i, j :: 0 <= i < j < |accounts| ==> accounts[i].email != accounts[j].email
  {
    forall i, j | 0 <= i < j < |accounts|
      ensures accounts[i].email != accounts[j].email
    {
      EmailInjective(accounts[i].username, accounts[j].username, domain);
    }
  }

  /** The usernames of a list of accounts. */
  function Usernames(accounts: seq<Account>): (names: set<string>)
    ensures forall k :: 0 <= k < |accounts| ==> accounts[k].username in names
  {
    set k | 0 <= k < |accounts| :: accounts[k].username
  }

  /**
   * The account the loop creates for `agent` at 0-based position `k`, after
   * the accounts `prior`: the name `generate_username` chooses against the
   * pre-existing names and those handed out so far, the password for the
   * 1-based position, and the address on the script's domain.
   */
  ghost predicate AccountFor(script: Script, agent: Agent, k: nat, taken: set<string>, acc: Account) {
    && acc.index == k + 1
    && BaseUsername(script, agent).Some?
    && ChosenName(BaseUsername(script, agent).value, taken, acc.username)
    && Password(script, agent.lastName, k + 1) == Some(acc.password)
    && acc.email == acc.username + "@" + EmailDomain(script)
  }

  /** Appending a name's account adds exactly that name. */
  lemma UsernamesAppend(accounts: seq<Account>, account: Account)
    ensures Usernames(accounts + [account]) == Usernames(accounts) + {account.username}
  {
    var next := accounts + [account];
    assert next[|accounts|] == account;
    assert forall k :: 0 <= k < |accounts| ==> next[k] == accounts[k];
  }

  /** Appending leaves every earlier prefix as it was. */
  lemma PrefixesOfAppend<T>(s: seq<T>, x: T)
    ensures forall k :: 0 <= k <= |s| ==> (s + [x])[..k] == s[..k]
  {
  }

  /** The facts the main loop keeps: each account so far is the one created for its agent. */
  ghost predicate RunSoFar(script: Script, agents: seq<Agent>, existing: set<string>, accounts: seq<Account>) {
    && |accounts| <= |agents|
    && forall k :: 0 <= k < |accounts| ==> AccountFor(script, agents[k], k, existing + Usernames(accounts[..k]), accounts[k])
  }

  /** The new account's fact, restated against the extended list. */
  lemma NewAccountFits(script: Script, agents: seq<Agent>, existing: set<string>, accounts: seq<Account>, idx: nat, taken: set<string>, account: Account)
    requires idx == |accounts| < |agents|
    requires taken == existing + Usernames(accounts)
    requires AccountFor(script, agents[idx], idx, taken, account)
    ensures AccountFor(script, agents[idx], idx, existing + Usernames((accounts + [account])[..idx]), (accounts + [account])[idx])
  {
    assert (accounts + [account])[..idx] == accounts;
  }

  /** The earlier accounts' facts, restated against the extended list. */
  lemma OldAccountsFit(script: Script, agents: seq<Agent>, existing: set<string>, accounts: seq<Account>, account: Account)
    requires RunSoFar(script, agents, existing, accounts)
    ensures forall k :: 0 <= k < |accounts| ==>
              AccountFor(script, agents[k], k, existing + Usernames((accounts + [account])[..k]), (accounts + [account])[k])
  {
    PrefixesOfAppend(accounts, account);
  }

  /** One more account, chosen against the names taken so far, keeps those facts. */
  lemma ExtendRun(script: Script, agents: seq<Agent>, existing: set<string>, accounts: seq<Account>, idx: nat, taken: set<string>, account: Account)
    requires idx == |accounts| < |agents|
    requires taken == existing + Usernames(accounts)
    requires RunSoFar(script, agents, existing, accounts)
    requires AccountFor(script, agents[idx], idx, taken, account)
    ensures RunSoFar(script, agents, existing, accounts + [account])
    ensures taken + {account.username} == existing + Usernames(accounts + [account])
  {
    NewAccountFits(script, agents, existing, accounts, idx, taken, account);
    OldAccountsFit(script, agents, existing, accounts, account);
    UsernamesAppend(accounts, account);
  }

  /**
   * Because every name is chosen against the pre-existing names and those
   * handed out earlier in the run, a run never reuses a name.
   */
  lemma RunNamesFresh(script: Script, agents: seq<Agent>, existing: set<string>, accounts: seq<Account>)
    requires RunSoFar(script, agents, existing, accounts)
    ensures forall k :: 0 <= k < |accounts| ==> accounts[k].username !in existing
    ensures forall i, j :: 0 <= i < j < |accounts| ==> accounts[i].username != accounts[j].username
  {
    forall i, j | 0 <= i < j < |accounts|
      ensures accounts[i].username != accounts[j].username
    {
      assert AccountFor(script, agents[j], j, existing + Usernames(accounts[..j]), accounts[j]);
      assert accounts[..j][i] == accounts[i];
      assert accounts[i].username in Usernames(accounts[..j]);
    }
  }

  /**
   * One pass of the main loop for the agent at 0-based position `k`:
   * `generate_username` against the names taken so far, then
   * `generate_password`; `None` where either raises the `IndexError`.
   */
  method CreateAccount(script: Script, agent: Agent, k: nat, taken: set<string>) returns (r: Option<Account>)
    ensures r.None? <==> BaseUsername(script, agent).None? || Password(script, agent.lastName, k + 1).None?
    ensures r.Some? ==> AccountFor(script, agent, k, taken, r.value)
  {
    var base := BaseUsername(script, agent);
    var password := Password(script, agent.lastName, k + 1);
    if base.None? || password.None? {
      return None;
    }
    var username := GenerateUsername(base.value, taken);
    return Some(Account(k + 1, username, password.value, username + "@" + EmailDomain(script)));
  }

  /**
   * A script's main loop: for each agent in order, the username chosen
   * against every name taken so far, the password for its 1-based
   * position, and the new name added to the taken set. A blank name stops
   * the run with the `IndexError`; `failure` is then the position of the
   * failing agent and `accounts` holds those created before it.
   */
  method RunScript(script: Script, agents: seq<Agent>, existing: set<string>)
    returns (accounts: seq<Account>, taken: set<string>, failure: Option<nat>)
    ensures |accounts| <= |agents|
    ensures failure.None? ==> |accounts| == |agents|
    ensures failure.Some? ==>
              (&& failure.value == |accounts| < |agents|
               && (BaseUsername(script, agents[|accounts|]).None? || Password(script, agents[|accounts|].lastName, |accounts| + 1).None?))
    ensures RunSoFar(script, agents, existing, accounts)
    ensures forall k :: 0 <= k < |accounts| ==> accounts[k].username !in existing
    ensures forall i, j :: 0 <= i < j < |accounts| ==> accounts[i].username != accounts[j].username
    ensures forall i, j :: 0 <= i < j < |accounts| ==> accounts[i].email != accounts[j].email
    ensures taken == existing + Usernames(accounts)
  {
    accounts := [];
    taken := existing;
    failure := None;
    var idx := 0;
    while idx < |agents| && failure.None?
      invariant idx == |accounts| <= |agents|
      invariant taken == existing + Usernames(accounts)
      invariant RunSoFar(script, agents, existing, accounts)
      invariant failure.Some? ==>
                  (&& failure.value == idx < |agents|
                   && (BaseUsername(script, agents[idx]).None? || Password(script, agents[idx].lastName, idx + 1).None?))
      decreases |agents| - idx, if failure.None? then 1 else 0
    {
      var created := CreateAccount(script, agents[idx], idx, taken);
      if created.None? {
        failure := Some(idx);
      } else {
        ExtendRun(script, agents, existing, accounts, idx, taken, created.value);
        accounts := accounts + [created.value];
        taken := taken + {created.value.username};
        idx := idx + 1;
      }
    }
    RunNamesFresh(script, agents, existing, accounts);
    EmailsDistinct(accounts, EmailDomain(script));
  }

  /** A word without quotes, dashes or dots is only lower-cased by the cleaning. */
  lemma CleanWordPlain(w: string, low: string)
    requires '\'' !in w && '-' !in w && '.' !in w
    requires Lower(w) == low
    ensures StripQuoteDash(low) == low
    ensures CleanWord(w) == low
  {
    assert forall i :: 0 <= i < |low| ==> low[i] != '\'' && low[i] != '-' && low[i] != '.' by {
      forall i | 0 <= i < |low|
        ensures low[i] != '\'' && low[i] != '-' && low[i] != '.'
      {
        assert w[i] in w;
      }
    }
    RemoveAbsent(low, '\'');
    RemoveAbsent(low, '-');
    RemoveAbsent(low, '.');
  }

  /** Outside Azing1, a first name that starts with a plain word gives that word, lower-cased. */
  lemma {:induction false} GivenNameOfPlainWord(script: Script, w: string, rest: string)
    requires IsWord(w) && '\'' !in w && '-' !in w && '.' !in w
    requires rest == [] || IsSpace(rest[0])
    requires script != Azing1
    ensures GivenName(script, w + rest) == Some(Lower(w))
  {
    assert FirstWord(w + rest) == Some(w) by {
      SplitLeadingWord(w, rest);
    }
    assert CleanWord(w) == Lower(w) && StripQuoteDash(Lower(w)) == Lower(w) by {
      CleanWordPlain(w, Lower(w));
    }
  }

  /** Azing, Cafor and Ivoir Gardiennage take the first word of the first name, cleaned, whatever follows it. */
  lemma {:induction false} GivenNameOfWord(script: Script, w: string, rest: string)
    requires IsWord(w) && (rest == [] || IsSpace(rest[0]))
    requires script != Azing1 && script != Nbig && script != Yessimo
    ensures GivenName(script, w + rest) == Some(CleanWord(w))
  {
    SplitLeadingWord(w, rest);
  }

  /** A last name that starts with a plain word gives that word, lower-cased, outside Nbig. */
  lemma {:induction false} FamilyNameOfPlainWord(script: Script, w: string, rest: string)
    requires IsWord(w) && '\'' !in w && '-' !in w && '.' !in w
    requires rest == [] || IsSpace(rest[0])
    requires script != Nbig
    ensures FamilyName(script, w + rest) == Some(Lower(w))
  {
    assert FirstWord(w + rest) == Some(w) by {
      SplitLeadingWord(w, rest);
    }
    assert CleanWord(w) == Lower(w) && StripQuoteDash(Lower(w)) == Lower(w) by {
      CleanWordPlain(w, Lower(w));
    }
  }

  /** Nbig keeps the whole last name, spaces included, lower-cased, when it holds no quote, dash or dot. */
  lemma {:induction false} NbigFamilyNamePlain(lastName: string)
    requires '\'' !in lastName && '-' !in lastName && '.' !in lastName
    ensures FamilyName(Nbig, lastName) == Some(Lower(lastName))
  {
    CleanWordPlain(lastName, Lower(lastName));
  }

  /** Outside Nbig the stem is the last name's first word, quotes and dashes removed, cut to four and capitalised. */
  lemma {:induction false} StemOfLeadingWord(script: Script, w: string, rest: string)
    requires script != Nbig
    requires IsWord(w) && (rest == [] || IsSpace(rest[0]))
    ensures var clean := StripQuoteDash(w);
      PasswordStem(script, w + rest) == Some(Capitalize(if |clean| <= 4 then clean else clean[..4]))
  {
    assert FirstWord(w + rest) == Some(w) by {
      SplitLeadingWord(w, rest);
    }
  }

  /**
   * Two agents with the same base name, neither form taken before: the
   * first gets the base itself and the second the base with suffix 2.
   */
  lemma HomonymsGetSuffixTwo(base: string, existing: set<string>, n1: string, n2: string)
    requires base !in existing && Suffixed(base, 2) !in existing
    requires ChosenName(base, existing, n1)
    requires ChosenName(base, existing + {n1}, n2)
    ensures n1 == base && n2 == Suffixed(base, 2)
  {
    assert ChosenName(base, existing + {base}, Suffixed(base, 2));
    ChosenNameUnique(base, existing + {base}, n2, Suffixed(base, 2));
  }

  lemma AttaPassword()
    ensures Password(Nbig, "ATTA", 1) == Some("Nbig@Atta01")
  {
    assert PasswordStem(Nbig, "ATTA") == Some("Atta") by {
      assert Capitalize("ATTA") == "Atta";
    }
    assert ZeroPad2(1) == "01";
    assert "Nbig@" + "Atta" + "01" == "Nbig@Atta01";
  }

  lemma AkaPassword()
    ensures Password(Nbig, "AKA", 10) == Some("Nbig@Aka10")
  {
    assert PasswordStem(Nbig, "AKA") == Some("Aka") by {
      assert Capitalize("AKA") == "Aka";
    }
    assert ZeroPad2(10) == "10" by {
      assert NatToString(10) == NatToString(1) + [DigitChar(0)] == "10";
    }
    assert "Nbig@" + "Aka" + "10" == "Nbig@Aka10";
  }

  /** Nbig passwords: ('ATTA', 1) gives 'Nbig@Atta01', ('AKA', 10) gives 'Nbig@Aka10'. */
  lemma NbigPasswordExamples()
    ensures Password(Nbig, "ATTA", 1) == Some("Nbig@Atta01")
    ensures Password(Nbig, "AKA", 10) == Some("Nbig@Aka10")
  {
    AttaPassword();
    AkaPassword();
  }

  /** A blank first name stops every script. */
  lemma BlankFirstNameFails(script: Script, lastName: string)
    ensures BaseUsername(script, Agent(" ", lastName)).None?
  {
    assert FirstWord(" ").None? by {
      assert IsSpace(" "[0]);
      SplitEmptyIffBlank(" ");
    }
    assert GivenName(script, " ").None?;
  }
}
