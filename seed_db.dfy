/** The demo-data seeding command: the weighted e-mail providers, the
    username, e-mail and image rules, the status draw list, the customer
    user loop with its duplicate counter, the admin loop, and the per-day
    invoice loop. Names, random picks and the clock are inputs. */
module SeedDb {
  import opened Wrappers
  import Text
  import opened Models

  const UserCount: nat := 100
  const AdminCount: nat := 5
  const DaysCount: nat := 90
  const SuperuserName: string := "superuser"
  const AdminDomain: string := "ocg.com"
  const ImagePrefix: string := "https://robohash.org/"

  // ---------------------------------------------------------------------
  // Weighted e-mail providers
  // ---------------------------------------------------------------------

  /** `email_providers`: (domain, weight) pairs. */
  const EmailProviders: seq<(string, nat)> :=
    [("gmail.com", 100), ("outlook.com", 50), ("yahoo.com", 20), ("protonmail.com", 5), ("tutanota.com", 5)]

  /** Each item repeated `weight` times, items kept in their order. */
  function ExpandWeighted<T>(ps: seq<(T, nat)>): seq<T>
  {
    if ps == [] then [] else Text.Repeat(ps[0].0, ps[0].1) + ExpandWeighted(ps[1..])
  }

  function TotalWeight<T>(ps: seq<(T, nat)>): nat
  {
    if ps == [] then 0 else ps[0].1 + TotalWeight(ps[1..])
  }

  /** The summed weight of the pairs naming `x`. */
  function WeightOf<T(==)>(ps: seq<(T, nat)>, x: T): nat
  {
    if ps == [] then 0 else (if ps[0].0 == x then ps[0].1 else 0) + WeightOf(ps[1..], x)
  }

  /** `email_suffixes`. */
  function EmailSuffixes(): seq<string>
  {
    ExpandWeighted(EmailProviders)
  }

  lemma {:induction false} ExpandLength<T>(ps: seq<(T, nat)>)
    ensures |ExpandWeighted(ps)| == TotalWeight(ps)
  {
    if ps != [] {
      ExpandLength(ps[1..]);
    }
  }

  /** Each item occurs as many times as its weight. */
  lemma {:induction false} ExpandCount<T>(ps: seq<(T, nat)>, x: T)
    ensures Text.Occurrences(ExpandWeighted(ps), x) == WeightOf(ps, x)
  {
    if ps != [] {
      ExpandCount(ps[1..], x);
      Text.OccurrencesConcat(Text.Repeat(ps[0].0, ps[0].1), ExpandWeighted(ps[1..]), x);
      Text.OccurrencesRepeat(ps[0].0, ps[0].1, x);
    }
  }

  /** Item `k` fills the block that starts after the weights of the items
      before it: the items appear in order. */
  lemma {:induction false} ExpandBlock<T>(ps: seq<(T, nat)>, k: nat)
    requires k < |ps|
    ensures TotalWeight(ps[..k]) + ps[k].1 <= |ExpandWeighted(ps)|
    ensures ExpandWeighted(ps)[TotalWeight(ps[..k])..TotalWeight(ps[..k]) + ps[k].1] == Text.Repeat(ps[k].0, ps[k].1)
  {
    ExpandLength(ps);
    var first := Text.Repeat(ps[0].0, ps[0].1);
    var rest := ExpandWeighted(ps[1..]);
    assert ExpandWeighted(ps) == first + rest;
    if k == 0 {
      assert ps[..0] == [];
      assert (first + rest)[..ps[0].1] == first;
    } else {
      var off := TotalWeight(ps[1..][..k - 1]);
      assert TotalWeight(ps[..k]) == ps[0].1 + off by {
        assert ps[..k][1..] == ps[1..][..k - 1];
      }
      assert off + ps[k].1 <= |rest| && rest[off..off + ps[k].1] == Text.Repeat(ps[k].0, ps[k].1) by {
        ExpandBlock(ps[1..], k - 1);
      }
      Text.SliceAfter(first, rest, off, off + ps[k].1);
    }
  }

  predicate DistinctItems<T(==)>(ps: seq<(T, nat)>)
  {
    forall i, j :: 0 <= i < j < |ps| ==> ps[i].0 != ps[j].0
  }

  lemma {:induction false} WeightOfAbsent<T>(ps: seq<(T, nat)>, x: T)
    requires forall i :: 0 <= i < |ps| ==> ps[i].0 != x
    ensures WeightOf(ps, x) == 0
  {
    if ps != [] {
      WeightOfAbsent(ps[1..], x);
    }
  }

  /** With distinct items, the weight of an item is its own weight. */
  lemma {:induction false} WeightOfDistinct<T>(ps: seq<(T, nat)>, k: nat)
    requires k < |ps| && DistinctItems(ps)
    ensures WeightOf(ps, ps[k].0) == ps[k].1
  {
    if k == 0 {
      WeightOfAbsent(ps[1..], ps[0].0);
    } else {
      WeightOfDistinct(ps[1..], k - 1);
    }
  }

  /** The weights before `k` and from `k` on add up to the total. */
  lemma {:induction false} TotalWeightSplit<T>(ps: seq<(T, nat)>, k: nat)
    requires k <= |ps|
    ensures TotalWeight(ps[..k]) + TotalWeight(ps[k..]) == TotalWeight(ps)
  {
    if k > 0 {
      TotalWeightSplit(ps[1..], k - 1);
      assert ps[..k][1..] == ps[1..][..k - 1];
      assert ps[1..][k - 1..] == ps[k..];
    } else {
      assert ps[..0] == [] && ps[0..] == ps;
    }
  }

  lemma ProviderWeights()
    ensures TotalWeight(EmailProviders) == 180
    ensures TotalWeight(EmailProviders[1..]) == 80
    ensures TotalWeight(EmailProviders[2..]) == 30
    ensures TotalWeight(EmailProviders[3..]) == 10
    ensures TotalWeight(EmailProviders[4..]) == 5
    ensures DistinctItems(EmailProviders)
  {
    var ps := EmailProviders;
    assert TotalWeight(ps[5..]) == 0;
  }

  /** `email_suffixes` has 180 entries, the sum of the weights. */
  lemma EmailSuffixesLength()
    ensures |EmailSuffixes()| == 180
  {
    ProviderWeights();
    ExpandLength(EmailProviders);
  }

  /** Each provider occurs in `email_suffixes` exactly `weight` times: 180 in all. */
  lemma EmailSuffixesCounts(k: nat)
    requires k < |EmailProviders|
    ensures |EmailSuffixes()| == 180
    ensures Text.Occurrences(EmailSuffixes(), EmailProviders[k].0) == EmailProviders[k].1
  {
    ProviderWeights();
    ExpandLength(EmailProviders);
    ExpandCount(EmailProviders, EmailProviders[k].0);
    WeightOfDistinct(EmailProviders, k);
  }

  /** The suffixes come in provider order: gmail.com 100 times, outlook.com
      50, yahoo.com 20, then protonmail.com and tutanota.com 5 each. */
  lemma EmailSuffixesOrder(k: nat)
    requires k < |EmailProviders|
    ensures |EmailSuffixes()| == 180
    ensures TotalWeight(EmailProviders[..k]) == [0, 100, 150, 170, 175][k]
    ensures EmailSuffixes()[TotalWeight(EmailProviders[..k])..TotalWeight(EmailProviders[..k]) + EmailProviders[k].1]
      == Text.Repeat(EmailProviders[k].0, EmailProviders[k].1)
  {
    ProviderWeights();
    ExpandLength(EmailProviders);
    ExpandBlock(EmailProviders, k);
    TotalWeightSplit(EmailProviders, k);
  }

  // ---------------------------------------------------------------------
  // Usernames, e-mails and images
  // ---------------------------------------------------------------------

  /** The username rule: the first character of the first name, a dot and
      the last name with its spaces removed, lower-cased as a whole. */
  function Username(first: string, last: string): string
    requires |first| >= 1
  {
    Text.Lower([first[0]] + "." + Text.Remove(last, ' '))
  }

  /** The initial, a dot, then the last name without spaces, all lower case. */
  lemma UsernameShape(first: string, last: string)
    requires |first| >= 1
    ensures |Username(first, last)| == 2 + |Text.Remove(last, ' ')|
    ensures Username(first, last)[0] == Text.LowerChar(first[0]) && Username(first, last)[1] == '.'
    ensures Username(first, last)[2..] == Text.Lower(Text.Remove(last, ' '))
    ensures forall i :: 0 <= i < |Username(first, last)| ==> !Text.IsUpper(Username(first, last)[i])
  {
    var head, tail := [first[0]] + ".", Text.Remove(last, ' ');
    var u := Username(first, last);
    Text.LowerSpec(head + tail);
    Text.LowerSpec(head);
    Text.LowerConcat(head, tail);
    assert (head + tail)[0] == first[0] && (head + tail)[1] == '.';
    assert u == Text.Lower(head) + Text.Lower(tail);
  }

  /** A username holds a space only when the first name starts with one. */
  lemma UsernameSpaces(first: string, last: string)
    requires |first| >= 1
    ensures ' ' in Username(first, last) <==> first[0] == ' '
  {
    UsernameShape(first, last);
    var u, tail := Username(first, last), Text.Remove(last, ' ');
    Text.LowerSpec(tail);
  }

  /** A seeded username never clashes with the superuser's. */
  lemma UsernameNotSuperuser(first: string, last: string)
    requires |first| >= 1
    ensures Username(first, last) != SuperuserName
  {
    UsernameShape(first, last);
    assert SuperuserName[1] == 'u';
  }

  /** A customer user's address: the username, an '@' and the drawn domain. */
  function CustomerEmail(username: string, suffix: string): string
  {
    username + "@" + suffix
  }

  /** An admin's address: the username at the company domain. */
  function AdminEmail(username: string): string
  {
    CustomerEmail(username, AdminDomain)
  }

  /** Without an '@' in the username, the first '@' separates the
      username from the domain again. */
  lemma EmailSplits(username: string, suffix: string)
    requires '@' !in username
    ensures Text.IndexOf(CustomerEmail(username, suffix), '@') == |username|
    ensures CustomerEmail(username, suffix)[..|username|] == username
    ensures CustomerEmail(username, suffix)[|username| + 1..] == suffix
  {
    Text.IndexOfAfterWord(username, '@', suffix);
  }

  /** A seeded username has no '@' unless a name brings one. */
  lemma UsernameHasNoAt(first: string, last: string)
    requires |first| >= 1 && first[0] != '@' && '@' !in last
    ensures '@' !in Username(first, last)
  {
    UsernameShape(first, last);
    var u := Username(first, last);
    var tail := Text.Remove(last, ' ');
    Text.LowerSpec(tail);
    forall i | 0 <= i < |u| ensures u[i] != '@' {
      if i >= 2 {
        assert u[i] == Text.LowerChar(tail[i - 2]);
        assert tail[i - 2] in multiset(tail);
      }
    }
  }

  /** The first and last names joined by one space. */
  function FullName(first: string, last: string): string
  {
    first + " " + last
  }

  /** The avatar address: the image service prefix followed by the full name
      lower-cased with every space removed. */
  function ImageUrl(fullName: string): string
  {
    ImagePrefix + Text.Remove(Text.Lower(fullName), ' ')
  }

  /** Removing the spaces of a full name drops the separating one too. */
  lemma RemoveSpacesOfFullName(first: string, last: string)
    ensures Text.Remove(FullName(first, last), ' ') == Text.Remove(first, ' ') + Text.Remove(last, ' ')
  {
    assert Text.Remove(FullName(first, last), ' ') == Text.Remove(first + " ", ' ') + Text.Remove(last, ' ') by {
      Text.RemoveConcat(first + " ", last, ' ');
    }
    assert Text.Remove(first + " ", ' ') == Text.Remove(first, ' ') by {
      Text.RemoveConcat(first, " ", ' ');
      assert Text.Remove(" ", ' ') == [];
      assert Text.Remove(first, ' ') + [] == Text.Remove(first, ' ');
    }
  }

  /** Lower-casing the full name and removing its spaces gives the two
      names, lower-cased and without spaces, run together. */
  lemma ImagePathOfFullName(first: string, last: string)
    ensures Text.Remove(Text.Lower(FullName(first, last)), ' ')
      == Text.Lower(Text.Remove(first, ' ')) + Text.Lower(Text.Remove(last, ' '))
  {
    Text.LowerRemoveCommute(FullName(first, last), ' ');
    RemoveSpacesOfFullName(first, last);
    Text.LowerConcat(Text.Remove(first, ' '), Text.Remove(last, ' '));
  }

  /** The image path is the lower-cased first and last names with their
      spaces removed, run together. */
  lemma ImageUrlShape(first: string, last: string)
    ensures ImageUrl(FullName(first, last))
      == ImagePrefix + Text.Lower(Text.Remove(first, ' ')) + Text.Lower(Text.Remove(last, ' '))
    ensures ' ' !in ImageUrl(FullName(first, last))[|ImagePrefix|..]
  {
    var path := Text.Remove(Text.Lower(FullName(first, last)), ' ');
    var a, b := Text.Lower(Text.Remove(first, ' ')), Text.Lower(Text.Remove(last, ' '));
    ImagePathOfFullName(first, last);
    assert ImagePrefix + path == ImagePrefix + a + b;
    assert (ImagePrefix + path)[|ImagePrefix|..] == path;
  }

  /** The image path is the lower-cased first name without spaces followed
      by the part of the username after the dot. */
  lemma ImageEndsWithUsername(first: string, last: string)
    requires |first| >= 1
    ensures |Username(first, last)| >= 2
    ensures ImageUrl(FullName(first, last))
      == ImagePrefix + Text.Lower(Text.Remove(first, ' ')) + Username(first, last)[2..]
  {
    UsernameShape(first, last);
    ImageUrlShape(first, last);
  }

  /** The customer for a customer-group user: named after the user, with the
      robohash image of that name and no e-mail. */
  function SeedCustomer(id: UserId, user: User): (c: Customer)
  {
    var full := FullName(user.firstName, user.lastName);
    Customer(Some(id), full, "", Some(ImageUrl(full)))
  }

  /** The seeded customer is shown by its user's full name, and it fits the
      model's constraints exactly when the first and last names have at most
      127 characters between them (the full name adds one space). */
  lemma SeedCustomerFacts(id: UserId, user: User)
    ensures CustomerString(SeedCustomer(id, user)) == user.firstName + " " + user.lastName
    ensures SeedCustomer(id, user).user == Some(id)
    ensures |user.firstName| + |user.lastName| < NameMaxLength <==> ValidCustomer(SeedCustomer(id, user))
  {
  }

  /** The customer loop: one customer per customer-group user, in the order
      the query returns them, each owned by that user. */
  method CreateCustomers(ids: seq<UserId>, groupUsers: seq<User>) returns (customers: seq<Customer>)
    requires |ids| == |groupUsers|
    ensures |customers| == |groupUsers|
    ensures forall i :: 0 <= i < |customers| ==>
      && customers[i].user == Some(ids[i])
      && CustomerString(customers[i]) == groupUsers[i].firstName + " " + groupUsers[i].lastName
      && customers[i].image == Some(ImageUrl(FullName(groupUsers[i].firstName, groupUsers[i].lastName)))
  {
    customers := [];
    var i := 0;
    while i < |groupUsers|
      invariant 0 <= i <= |groupUsers| && |customers| == i
      invariant forall j :: 0 <= j < i ==> customers[j] == SeedCustomer(ids[j], groupUsers[j])
    {
      customers := customers + [SeedCustomer(ids[i], groupUsers[i])];
      i := i + 1;
    }
  }

  // ---------------------------------------------------------------------
  // Status draw list and invoice plan
  // ---------------------------------------------------------------------

  /** The status draw list: the word "paid" followed by a space, ten times,
      stripped and split on spaces, then the same for "pending" three times. */
  function SeedStatusChoices(): seq<string>
  {
    Text.Split(Text.Strip(Text.RepeatString(PaidWord + " ", PaidDraws)), ' ')
      + Text.Split(Text.Strip(Text.RepeatString(PendingWord + " ", PendingDraws)), ' ')
  }

  const PaidWord: string := "paid"
  const PaidDraws: nat := 10
  const PendingWord: string := "pending"
  const PendingDraws: nat := 3

  /** Two space-separated runs of words, stripped and split, give the two runs. */
  lemma TwoRuns(w1: string, n1: nat, w2: string, n2: nat)
    requires n1 >= 1 && w1 != [] && forall i :: 0 <= i < |w1| ==> !Text.IsWhitespace(w1[i])
    requires n2 >= 1 && w2 != [] && forall i :: 0 <= i < |w2| ==> !Text.IsWhitespace(w2[i])
    ensures Text.Split(Text.Strip(Text.RepeatString(w1 + " ", n1)), ' ')
      + Text.Split(Text.Strip(Text.RepeatString(w2 + " ", n2)), ' ')
      == Text.Repeat(w1, n1) + Text.Repeat(w2, n2)
  {
    Text.RepeatStripSplit(w1, n1);
    Text.RepeatStripSplit(w2, n2);
  }

  /** Ten "paid" entries, then three "pending" ones. */
  lemma SeedStatusChoicesValue()
    ensures SeedStatusChoices() == Text.Repeat("paid", 10) + Text.Repeat("pending", 3)
  {
    TwoRuns(PaidWord, PaidDraws, PendingWord, PendingDraws);
  }

  /** The draw list has 13 entries, each a valid status. */
  lemma SeedStatusChoicesValid()
    ensures |SeedStatusChoices()| == 13
    ensures forall i :: 0 <= i < 13 ==> ValidStatus(SeedStatusChoices()[i])
  {
    SeedStatusChoicesValue();
    StatusChoicesAreTwo("paid");
    StatusChoicesAreTwo("pending");
  }

  /** "paid" is drawn with weight 10 of 13, "pending" with weight 3. */
  lemma SeedStatusChoicesCounts()
    ensures Text.Occurrences(SeedStatusChoices(), "paid") == 10
    ensures Text.Occurrences(SeedStatusChoices(), "pending") == 3
  {
    assert SeedStatusChoices() == Text.Repeat(PaidWord, PaidDraws) + Text.Repeat(PendingWord, PendingDraws) by {
      SeedStatusChoicesValue();
    }
    assert PaidWord != PendingWord by {
      assert |PaidWord| != |PendingWord|;
    }
    TwoRunCounts(PaidWord, PaidDraws, PendingWord, PendingDraws);
  }

  /** In `n` copies of `x` followed by `m` copies of a different `y`, `x`
      occurs `n` times and `y` occurs `m` times. */
  lemma TwoRunCounts<T>(x: T, n: nat, y: T, m: nat)
    requires x != y
    ensures Text.Occurrences(Text.Repeat(x, n) + Text.Repeat(y, m), x) == n
    ensures Text.Occurrences(Text.Repeat(x, n) + Text.Repeat(y, m), y) == m
  {
    Text.OccurrencesConcat(Text.Repeat(x, n), Text.Repeat(y, m), x);
    Text.OccurrencesConcat(Text.Repeat(x, n), Text.Repeat(y, m), y);
    Text.OccurrencesRepeat(x, n, x);
    Text.OccurrencesRepeat(x, n, y);
    Text.OccurrencesRepeat(y, m, x);
    Text.OccurrencesRepeat(y, m, y);
  }

  /** Invoices per day: a hundred per customer spread over the seeded days,
      rounded down. */
  function InvoicesPerDay(countCustomers: nat): nat
  {
    countCustomers * 100 / DaysCount
  }

  /** The day offsets of the invoices in creation order: `perDay` of each
      offset 0, 1, ..., `days` - 1. */
  function DayPlan(days: nat, perDay: nat): seq<nat>
  {
    if days == 0 then [] else DayPlan(days - 1, perDay) + Text.Repeat<nat>(days - 1, perDay)
  }

  /** `days` days of `perDay` invoices each. */
  lemma {:induction false} DayPlanLength(days: nat, perDay: nat)
    ensures |DayPlan(days, perDay)| == days * perDay
  {
    if days > 0 {
      DayPlanLength(days - 1, perDay);
      assert (days - 1) * perDay + perDay == days * perDay;
    }
  }

  /** The day loop creates the hundred invoices per customer rounded down to
      a whole number per day: fewer than 90 short of `100 * countCustomers`,
      and 90 for a single customer. */
  lemma SeedInvoiceCount(countCustomers: nat)
    ensures |DayPlan(DaysCount, InvoicesPerDay(countCustomers))| == DaysCount * InvoicesPerDay(countCustomers)
    ensures 100 * countCustomers - DaysCount < |DayPlan(DaysCount, InvoicesPerDay(countCustomers))| <= 100 * countCustomers
    ensures countCustomers == 1 ==> |DayPlan(DaysCount, InvoicesPerDay(countCustomers))| == 90
  {
    var perDay := InvoicesPerDay(countCustomers);
    DayPlanLength(DaysCount, perDay);
    assert countCustomers * 100 == DaysCount * perDay + (countCustomers * 100) % DaysCount;
  }

  /** The plan for fewer days is the start of the plan for more. */
  lemma {:induction false} DayPlanPrefix(days: nat, total: nat, perDay: nat)
    requires days <= total
    ensures DayPlan(days, perDay) <= DayPlan(total, perDay)
  {
    if days < total {
      DayPlanPrefix(days, total - 1, perDay);
    }
  }

  /** Exactly `perDay` invoices for each day offset below `days`, none for any other. */
  lemma {:induction false} DayPlanCount(days: nat, perDay: nat, d: nat)
    ensures Text.Occurrences(DayPlan(days, perDay), d) == if d < days then perDay else 0
  {
    if days > 0 {
      DayPlanCount(days - 1, perDay, d);
      Text.OccurrencesConcat(DayPlan(days - 1, perDay), Text.Repeat<nat>(days - 1, perDay), d);
      Text.OccurrencesRepeat<nat>(days - 1, perDay, d);
    }
  }

  /** Offsets never decrease: each invoice is at most as recent as the previous. */
  lemma {:induction false} DayPlanAscending(days: nat, perDay: nat)
    ensures forall i, j :: 0 <= i < j < |DayPlan(days, perDay)| ==> DayPlan(days, perDay)[i] <= DayPlan(days, perDay)[j]
    ensures forall i :: 0 <= i < |DayPlan(days, perDay)| ==> DayPlan(days, perDay)[i] < days
  {
    if days > 0 {
      DayPlanAscending(days - 1, perDay);
      var prev := DayPlan(days - 1, perDay);
      var p := DayPlan(days, perDay);
      assert p == prev + Text.Repeat<nat>(days - 1, perDay);
      forall i | 0 <= i < |p| ensures p[i] < days && (i < |prev| ==> p[i] == prev[i]) && (i >= |prev| ==> p[i] == days - 1) {
      }
    }
  }

  // ---------------------------------------------------------------------
  // The seeding loops
  // ---------------------------------------------------------------------

  /** A user account as the command creates it. */
  datatype User = User(username: string, email: string, firstName: string, lastName: string)

  function CustomerUser(first: string, last: string, suffix: string): User
    requires |first| >= 1
  {
    User(Username(first, last), CustomerEmail(Username(first, last), suffix), first, last)
  }

  function AdminUser(first: string, last: string): User
    requires |first| >= 1
  {
    User(Username(first, last), AdminEmail(Username(first, last)), first, last)
  }

  /** A user built from a name pair and a domain: its names are kept, its
      username follows the username rule and is never the superuser's, and
      when the names hold no '@' its address splits at the first '@' back
      into the username and the domain. */
  lemma CustomerUserFacts(first: string, last: string, suffix: string)
    requires |first| >= 1
    ensures var u := CustomerUser(first, last, suffix);
      && u.firstName == first && u.lastName == last
      && |u.username| == 2 + |Text.Remove(last, ' ')|
      && u.username[0] == Text.LowerChar(first[0]) && u.username[1] == '.'
      && u.username[2..] == Text.Lower(Text.Remove(last, ' '))
      && u.username != SuperuserName
    ensures '@' !in first && '@' !in last ==>
      var u := CustomerUser(first, last, suffix);
      && Text.IndexOf(u.email, '@') == |u.username|
      && u.email[..|u.username|] == u.username
      && u.email[|u.username| + 1..] == suffix
  {
    UsernameShape(first, last);
    UsernameNotSuperuser(first, last);
    if '@' !in first && '@' !in last {
      assert first[0] in first;
      UsernameHasNoAt(first, last);
      EmailSplits(Username(first, last), suffix);
    }
  }

  /** Names the username rule can take: one list of first names and one of
      last names, of the same length, the first names non-empty. */
  predicate NameLists(firsts: seq<string>, lasts: seq<string>)
  {
    |firsts| == |lasts| && forall i :: 0 <= i < |firsts| ==> |firsts[i]| >= 1
  }

  /** The usernames of the first `n` name pairs. */
  function UsernamesOf(firsts: seq<string>, lasts: seq<string>, n: nat): set<string>
    requires NameLists(firsts, lasts) && n <= |firsts|
  {
    set i | 0 <= i < n :: Username(firsts[i], lasts[i])
  }

  /** What a user-creating loop leaves behind: the `error_users` counter,
      the users created, and the usernames in the database. */
  datatype UserOutcome = UserOutcome(errorUsers: nat, users: seq<User>, taken: set<string>)

  /** Creating the first `n` candidate users in turn. `existing` holds the
      usernames already in the database; creating a user whose username is
      taken raises the integrity error that is counted in `error_users`, and
      the loop goes on. */
  function Register(candidates: seq<User>, existing: set<string>, n: nat): UserOutcome
    requires n <= |candidates|
  {
    if n == 0 then UserOutcome(0, [], existing)
    else
      var prev := Register(candidates, existing, n - 1);
      var user := candidates[n - 1];
      if user.username in prev.taken then UserOutcome(prev.errorUsers + 1, prev.users, prev.taken)
      else UserOutcome(prev.errorUsers, prev.users + [user], prev.taken + {user.username})
  }

  /** The usernames of the first `n` candidates. */
  function CandidateNames(candidates: seq<User>, n: nat): set<string>
    requires n <= |candidates|
  {
    set i | 0 <= i < n :: candidates[i].username
  }

  /** The user the customer loop builds for each name pair, with the suffix
      drawn for it. */
  function CustomerCandidates(firsts: seq<string>, lasts: seq<string>, suffixes: seq<string>, suffixPicks: seq<nat>)
    : (r: seq<User>)
    requires NameLists(firsts, lasts) && |suffixPicks| == |firsts|
    requires forall i :: 0 <= i < |suffixPicks| ==> suffixPicks[i] < |suffixes|
    ensures |r| == |firsts|
    ensures forall i :: 0 <= i < |r| ==> r[i] == CustomerUser(firsts[i], lasts[i], suffixes[suffixPicks[i]])
  {
    seq(|firsts|, i requires 0 <= i < |firsts| => CustomerUser(firsts[i], lasts[i], suffixes[suffixPicks[i]]))
  }

  /** The customer user loop: `user_count` attempts, each either a new user or
      one more error. */
  method CreateCustomerUsers(firsts: seq<string>, lasts: seq<string>, suffixPicks: seq<nat>, existing: set<string>)
    returns (errorUsers: nat, users: seq<User>, taken: set<string>)
    requires NameLists(firsts, lasts) && |firsts| == UserCount && |suffixPicks| == UserCount
    requires forall i :: 0 <= i < |suffixPicks| ==> suffixPicks[i] < 180
    ensures UserOutcome(errorUsers, users, taken)
      == Register(CustomerCandidates(firsts, lasts, EmailSuffixes(), suffixPicks), existing, UserCount)
    ensures errorUsers + |users| == UserCount
    ensures taken == existing + UsernamesOf(firsts, lasts, UserCount)
  {
    var suffixes := EmailSuffixes();
    EmailSuffixesLength();
    ghost var candidates := CustomerCandidates(firsts, lasts, suffixes, suffixPicks);
    errorUsers, users, taken := 0, [], existing;
    var i := 0;
    while i < UserCount
      invariant 0 <= i <= UserCount
      invariant UserOutcome(errorUsers, users, taken) == Register(candidates, existing, i)
    {
      var username := Username(firsts[i], lasts[i]);
      var email := CustomerEmail(username, suffixes[suffixPicks[i]]);
      var user := User(username, email, firsts[i], lasts[i]);
      assert user == candidates[i];
      if username in taken {
        errorUsers := errorUsers + 1;
      } else {
        users := users + [user];
        taken := taken + {username};
      }
      i := i + 1;
    }
    RegisterCount(candidates, existing, UserCount);
    RegisterTaken(candidates, existing, UserCount);
    CustomerCandidateNames(firsts, lasts, suffixes, suffixPicks, UserCount);
  }

  /** Every attempt is either a success or an error: `error_users` plus the
      users created is the number of attempts. */
  lemma {:induction false} RegisterCount(candidates: seq<User>, existing: set<string>, n: nat)
    requires n <= |candidates|
    ensures Register(candidates, existing, n).errorUsers + |Register(candidates, existing, n).users| == n
  {
    if n > 0 {
      RegisterCount(candidates, existing, n - 1);
    }
  }

  /** Afterwards the database holds the earlier usernames and the username of
      every candidate, whether its creation failed or not. */
  lemma {:induction false} RegisterTaken(candidates: seq<User>, existing: set<string>, n: nat)
    requires n <= |candidates|
    ensures Register(candidates, existing, n).taken == existing + CandidateNames(candidates, n)
  {
    if n > 0 {
      RegisterTaken(candidates, existing, n - 1);
      assert CandidateNames(candidates, n) == CandidateNames(candidates, n - 1) + {candidates[n - 1].username};
      AddName(Register(candidates, existing, n - 1).taken, existing, CandidateNames(candidates, n - 1),
              candidates[n - 1].username);
    }
  }

  /** The users created have distinct usernames, none of them in the database
      before, and there are as many users as new usernames. */
  lemma {:induction false} RegisterDistinct(candidates: seq<User>, existing: set<string>, n: nat)
    requires n <= |candidates|
    ensures var o := Register(candidates, existing, n);
      && existing <= o.taken
      && |o.users| == |o.taken - existing|
      && (forall a :: 0 <= a < |o.users| ==> o.users[a].username in o.taken - existing)
      && (forall a, b :: 0 <= a < b < |o.users| ==> o.users[a].username != o.users[b].username)
  {
    if n > 0 {
      RegisterDistinct(candidates, existing, n - 1);
      var prev := Register(candidates, existing, n - 1);
      var user := candidates[n - 1];
      if user.username !in prev.taken {
        AddNew(prev.taken, existing, user.username);
        DistinctAppend(prev.users, prev.taken - existing, user);
      }
    }
  }

  /** The users created are, in order, exactly the candidates whose username
      was free when their turn came. */
  lemma {:induction false} RegisterCreated(candidates: seq<User>, existing: set<string>, n: nat)
    requires n <= |candidates|
    ensures forall a :: 0 <= a < |Register(candidates, existing, n).users| ==>
      Register(candidates, existing, n).users[a] in candidates[..n]
    ensures n > 0 ==>
      (candidates[n - 1].username !in Register(candidates, existing, n - 1).taken
       <==> Register(candidates, existing, n).users
            == Register(candidates, existing, n - 1).users + [candidates[n - 1]])
  {
    if n > 0 {
      RegisterCreated(candidates, existing, n - 1);
      var prev := Register(candidates, existing, n - 1);
      var o := Register(candidates, existing, n);
      forall a | 0 <= a < |o.users| ensures o.users[a] in candidates[..n] {
        if a < |prev.users| {
          assert o.users[a] == prev.users[a] && prev.users[a] in candidates[..n - 1];
          assert candidates[..n - 1] <= candidates[..n];
        } else {
          assert o.users[a] == candidates[n - 1] == candidates[..n][n - 1];
        }
      }
      if candidates[n - 1].username in prev.taken {
        assert |o.users| == |prev.users|;
      }
    }
  }

  /** The usernames of the customer candidates are the usernames of the name
      pairs. */
  lemma CustomerCandidateNames(firsts: seq<string>, lasts: seq<string>, suffixes: seq<string>,
                               suffixPicks: seq<nat>, n: nat)
    requires NameLists(firsts, lasts) && |suffixPicks| == |firsts| && n <= |firsts|
    requires forall i :: 0 <= i < |suffixPicks| ==> suffixPicks[i] < |suffixes|
    ensures CandidateNames(CustomerCandidates(firsts, lasts, suffixes, suffixPicks), n)
      == UsernamesOf(firsts, lasts, n)
  {
    var c := CustomerCandidates(firsts, lasts, suffixes, suffixPicks);
    forall x | x in UsernamesOf(firsts, lasts, n) ensures x in CandidateNames(c, n) {
      var i :| 0 <= i < n && x == Username(firsts[i], lasts[i]);
      assert c[i].username == x;
    }
  }

  /** Adding a name to both sides keeps them equal. */
  lemma AddName<T>(taken: set<T>, existing: set<T>, prev: set<T>, name: T)
    requires taken == existing + prev
    ensures taken + {name} == existing + (prev + {name})
    ensures name in taken ==> taken == existing + (prev + {name})
  {
  }

  /** A name not yet taken is one more new name. */
  lemma AddNew<T>(taken: set<T>, existing: set<T>, name: T)
    requires existing <= taken && name !in taken
    ensures existing <= taken + {name}
    ensures (taken + {name}) - existing == (taken - existing) + {name}
    ensures |(taken + {name}) - existing| == |taken - existing| + 1
  {
    assert name !in taken - existing;
  }

  /** Appending a user whose username is not among `names` keeps the
      usernames distinct and within `names` plus the new one. */
  lemma DistinctAppend(users: seq<User>, names: set<string>, user: User)
    requires forall a :: 0 <= a < |users| ==> users[a].username in names
    requires forall a, b :: 0 <= a < b < |users| ==> users[a].username != users[b].username
    requires user.username !in names
    ensures forall a :: 0 <= a < |users + [user]| ==> (users + [user])[a].username in names + {user.username}
    ensures forall a, b :: 0 <= a < b < |users + [user]| ==> (users + [user])[a].username != (users + [user])[b].username
  {
  }

  /** What the admin loop leaves behind: the admins created, the usernames
      in the database, and whether a taken username stopped the command. */
  datatype AdminOutcome = AdminOutcome(admins: seq<User>, taken: set<string>, aborted: bool)

  /** Creating the first `n` candidate admins in turn. Here the integrity
      error of a taken username is not caught: the command stops there. */
  function RegisterAdmins(candidates: seq<User>, existing: set<string>, n: nat): AdminOutcome
    requires n <= |candidates|
  {
    if n == 0 then AdminOutcome([], existing, false)
    else
      var prev := RegisterAdmins(candidates, existing, n - 1);
      var user := candidates[n - 1];
      if prev.aborted then prev
      else if user.username in prev.taken then AdminOutcome(prev.admins, prev.taken, true)
      else AdminOutcome(prev.admins + [user], prev.taken + {user.username}, false)
  }

  /** The user the admin loop builds for each name pair. */
  function AdminCandidates(firsts: seq<string>, lasts: seq<string>): (r: seq<User>)
    requires NameLists(firsts, lasts)
    ensures |r| == |firsts|
    ensures forall i :: 0 <= i < |r| ==> r[i] == AdminUser(firsts[i], lasts[i])
  {
    seq(|firsts|, i requires 0 <= i < |firsts| => AdminUser(firsts[i], lasts[i]))
  }

  /** The `i`-th user the customer loop attempts: the `i`-th names, their
      username, and an address at the `i`-th drawn domain. */
  lemma CustomerCandidateFacts(firsts: seq<string>, lasts: seq<string>, suffixes: seq<string>,
                               suffixPicks: seq<nat>, i: nat)
    requires NameLists(firsts, lasts) && |suffixPicks| == |firsts| && i < |firsts|
    requires forall k :: 0 <= k < |suffixPicks| ==> suffixPicks[k] < |suffixes|
    ensures var u := CustomerCandidates(firsts, lasts, suffixes, suffixPicks)[i];
      && u.firstName == firsts[i] && u.lastName == lasts[i]
      && |u.username| == 2 + |Text.Remove(lasts[i], ' ')|
      && u.username[1] == '.' && u.username[2..] == Text.Lower(Text.Remove(lasts[i], ' '))
      && u.username != SuperuserName
    ensures '@' !in firsts[i] && '@' !in lasts[i] ==>
      var u := CustomerCandidates(firsts, lasts, suffixes, suffixPicks)[i];
      && Text.IndexOf(u.email, '@') == |u.username|
      && u.email[..|u.username|] == u.username
      && u.email[|u.username| + 1..] == suffixes[suffixPicks[i]]
  {
    CustomerUserFacts(firsts[i], lasts[i], suffixes[suffixPicks[i]]);
  }

  /** The `i`-th user the admin loop attempts: the `i`-th names, their
      username, and an address at the company domain. */
  lemma AdminCandidateFacts(firsts: seq<string>, lasts: seq<string>, i: nat)
    requires NameLists(firsts, lasts) && i < |firsts|
    ensures var u := AdminCandidates(firsts, lasts)[i];
      && u.firstName == firsts[i] && u.lastName == lasts[i]
      && |u.username| == 2 + |Text.Remove(lasts[i], ' ')|
      && u.username[1] == '.' && u.username[2..] == Text.Lower(Text.Remove(lasts[i], ' '))
      && u.username != SuperuserName
    ensures '@' !in firsts[i] && '@' !in lasts[i] ==>
      var u := AdminCandidates(firsts, lasts)[i];
      && Text.IndexOf(u.email, '@') == |u.username|
      && u.email[..|u.username|] == u.username
      && u.email[|u.username| + 1..] == AdminDomain
  {
    assert AdminCandidates(firsts, lasts)[i] == CustomerUser(firsts[i], lasts[i], AdminDomain);
    CustomerUserFacts(firsts[i], lasts[i], AdminDomain);
  }

  /** The admin loop: five admins with "@ocg.com" addresses, stopping at the
      first taken username. */
  method CreateAdmins(firsts: seq<string>, lasts: seq<string>, existing: set<string>)
    returns (admins: seq<User>, taken: set<string>, aborted: bool)
    requires NameLists(firsts, lasts) && |firsts| == AdminCount
    ensures AdminOutcome(admins, taken, aborted) == RegisterAdmins(AdminCandidates(firsts, lasts), existing, AdminCount)
  {
    ghost var candidates := AdminCandidates(firsts, lasts);
    admins, taken, aborted := [], existing, false;
    var i := 0;
    while i < AdminCount && !aborted
      invariant 0 <= i <= AdminCount
      invariant AdminOutcome(admins, taken, aborted) == RegisterAdmins(candidates, existing, i)
    {
      var username := Username(firsts[i], lasts[i]);
      var user := User(username, AdminEmail(username), firsts[i], lasts[i]);
      assert user == candidates[i];
      if username in taken {
        aborted := true;
      } else {
        admins := admins + [user];
        taken := taken + {username};
      }
      i := i + 1;
    }
    AdminsStayAborted(candidates, existing, i, AdminCount);
  }

  /** Once stopped, the command creates nothing more. */
  lemma {:induction false} AdminsStayAborted(candidates: seq<User>, existing: set<string>, i: nat, n: nat)
    requires i <= n <= |candidates|
    requires i == n || RegisterAdmins(candidates, existing, i).aborted
    ensures RegisterAdmins(candidates, existing, n) == RegisterAdmins(candidates, existing, i)
  {
    if i < n {
      AdminsStayAborted(candidates, existing, i, n - 1);
    }
  }

  /** The admins created are the first candidates, in order, each with a
      username new to the database; the command stops exactly when a
      candidate's username is already taken, and that candidate is the one
      after the last admin created. */
  lemma {:induction false} RegisterAdminsPrefix(candidates: seq<User>, existing: set<string>, n: nat)
    requires n <= |candidates|
    ensures var o := RegisterAdmins(candidates, existing, n);
      && |o.admins| <= n
      && o.admins == candidates[..|o.admins|]
      && (o.aborted <==> |o.admins| < n)
      && (o.aborted ==> candidates[|o.admins|].username in o.taken)
      && o.taken == existing + CandidateNames(candidates, |o.admins|)
      && (forall a :: 0 <= a < |o.admins| ==> o.admins[a].username !in existing)
      && (forall a, b :: 0 <= a < b < |o.admins| ==> o.admins[a].username != o.admins[b].username)
  {
    if n > 0 {
      RegisterAdminsPrefix(candidates, existing, n - 1);
      var prev := RegisterAdmins(candidates, existing, n - 1);
      var user := candidates[n - 1];
      if !prev.aborted && user.username !in prev.taken {
        var k := |prev.admins|;
        assert k == n - 1;
        assert prev.admins + [user] == candidates[..n];
        assert CandidateNames(candidates, n) == CandidateNames(candidates, k) + {user.username};
        forall a | 0 <= a < k ensures prev.admins[a].username != user.username {
          assert prev.admins[a].username in CandidateNames(candidates, k);
        }
      }
    }
  }

  /** An invoice the day loop creates: the drawn customer (an index into the
      customer list), the drawn amount in cents, the day offset from now and
      the drawn status. */
  datatype SeedInvoice = SeedInvoice(customer: nat, amount: int, daysAgo: nat, status: string)

  /** Invoice `k` of the day loop: the `k`-th draws, dated by the plan. */
  predicate Planned(inv: SeedInvoice, k: nat, plan: seq<nat>, customerPicks: seq<nat>, amountPicks: seq<int>,
                    statusPicks: seq<nat>, statusChoices: seq<string>)
  {
    && k < |plan| && k < |customerPicks| && k < |amountPicks| && k < |statusPicks|
    && statusPicks[k] < |statusChoices|
    && inv == SeedInvoice(customerPicks[k], amountPicks[k], plan[k], statusChoices[statusPicks[k]])
  }

  /** The invoices created so far, each as planned. */
  predicate AllPlanned(invoices: seq<SeedInvoice>, plan: seq<nat>, customerPicks: seq<nat>, amountPicks: seq<int>,
                       statusPicks: seq<nat>, statusChoices: seq<string>)
  {
    forall k :: 0 <= k < |invoices| ==> Planned(invoices[k], k, plan, customerPicks, amountPicks, statusPicks, statusChoices)
  }

  lemma AllPlannedAppend(invoices: seq<SeedInvoice>, inv: SeedInvoice, plan: seq<nat>, customerPicks: seq<nat>,
                         amountPicks: seq<int>, statusPicks: seq<nat>, statusChoices: seq<string>)
    requires AllPlanned(invoices, plan, customerPicks, amountPicks, statusPicks, statusChoices)
    requires Planned(inv, |invoices|, plan, customerPicks, amountPicks, statusPicks, statusChoices)
    ensures AllPlanned(invoices + [inv], plan, customerPicks, amountPicks, statusPicks, statusChoices)
  {
  }

  /** The day loop: for each day offset 0..89, `InvoicesPerDay` invoices dated
      that many days before now. The random draws are given in creation
      order, one of each per invoice. */
  method SeedInvoices(countCustomers: nat, customerPicks: seq<nat>, amountPicks: seq<int>, statusPicks: seq<nat>)
    returns (invoices: seq<SeedInvoice>)
    requires |customerPicks| == |DayPlan(DaysCount, InvoicesPerDay(countCustomers))|
    requires |amountPicks| == |customerPicks| && |statusPicks| == |customerPicks|
    requires forall k :: 0 <= k < |statusPicks| ==> statusPicks[k] < |SeedStatusChoices()|
    ensures |invoices| == |customerPicks|
    ensures AllPlanned(invoices, DayPlan(DaysCount, InvoicesPerDay(countCustomers)),
                       customerPicks, amountPicks, statusPicks, SeedStatusChoices())
  {
    var perDay := InvoicesPerDay(countCustomers);
    var statusChoices := SeedStatusChoices();
    ghost var plan := DayPlan(DaysCount, perDay);
    invoices := [];
    var days := 0;
    while days < DaysCount
      invariant 0 <= days <= DaysCount
      invariant DayPlan(days, perDay) <= plan
      invariant |invoices| == |DayPlan(days, perDay)|
      invariant AllPlanned(invoices, plan, customerPicks, amountPicks, statusPicks, statusChoices)
    {
      ghost var before := DayPlan(days, perDay);
      ghost var after := DayPlan(days + 1, perDay);
      DayPlanPrefix(days + 1, DaysCount, perDay);
      assert after == before + Text.Repeat<nat>(days, perDay);
      var n := 0;
      while n < perDay
        invariant 0 <= n <= perDay
        invariant |invoices| == |before| + n
        invariant AllPlanned(invoices, plan, customerPicks, amountPicks, statusPicks, statusChoices)
      {
        var k := |invoices|;
        assert plan[k] == after[k] == days;
        var inv := SeedInvoice(customerPicks[k], amountPicks[k], days, statusChoices[statusPicks[k]]);
        AllPlannedAppend(invoices, inv, plan, customerPicks, amountPicks, statusPicks, statusChoices);
        invoices := invoices + [inv];
        n := n + 1;
      }
      days := days + 1;
    }
  }

  /** Every seeded invoice has a valid status and the `k`-th drawn customer
      and amount; invoice `k` is dated `DayPlan(...)[k]` days before now. */
  lemma SeedInvoicesFacts(invoices: seq<SeedInvoice>, countCustomers: nat, customerPicks: seq<nat>,
                          amountPicks: seq<int>, statusPicks: seq<nat>)
    requires AllPlanned(invoices, DayPlan(DaysCount, InvoicesPerDay(countCustomers)),
                        customerPicks, amountPicks, statusPicks, SeedStatusChoices())
    ensures forall k :: 0 <= k < |invoices| ==> ValidStatus(invoices[k].status)
    ensures forall k :: 0 <= k < |invoices| ==> invoices[k].customer == customerPicks[k]
    ensures forall k :: 0 <= k < |invoices| ==> invoices[k].amount == amountPicks[k]
    ensures forall k :: 0 <= k < |invoices| ==> invoices[k].daysAgo < DaysCount
  {
    var plan := DayPlan(DaysCount, InvoicesPerDay(countCustomers));
    var choices := SeedStatusChoices();
    SeedStatusChoicesValid();
    DayPlanAscending(DaysCount, InvoicesPerDay(countCustomers));
    forall k | 0 <= k < |invoices|
      ensures ValidStatus(invoices[k].status) && invoices[k].daysAgo < DaysCount
      ensures invoices[k].customer == customerPicks[k] && invoices[k].amount == amountPicks[k]
    {
      assert Planned(invoices[k], k, plan, customerPicks, amountPicks, statusPicks, choices);
      assert invoices[k].status == choices[statusPicks[k]] && invoices[k].daysAgo == plan[k];
    }
  }
}
