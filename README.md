# Invoicing demo backend — a Dafny model

A model of the invoicing core of the `ocg_demo_backend` Django application.
It covers:

- **Invoice status choices** (`Settings`): the two stored values, "pending"
  and "paid".
- **The `Customer` and `Invoice` records** (`Models`):
  - the field constraints (name and e-mail lengths, the status choices, an
    amount of 11 digits with 2 after the point);
  - the creation defaults (status "pending", date "now");
  - the `__str__` forms;
  - the default listing order, newest date first.
- **The dashboard endpoint** (`Dashboard`):
  - all-time count and sum of the customer-side invoices (supplier unset)
    and of the supplier-side invoices (customer unset);
  - per-month count, sum and average of the current year's customer-side
    invoices, keyed by "MM-YYYY" in month order;
  - the all-time profit, the customer-side sum less the supplier-side sum.
- **`InvoiceSerializer`**, in both serializer modules (`InvoicingSerializers`,
  `Serializers`):
  - the exposed fields;
  - `update`, which assigns each of the four invoice fields from the
    validated data when its key is present and then saves the instance.
    The instance is a class whose fields the method updates in place.
- **The `seed_db` management command** (`SeedDb`):
  - the weighted list of e-mail domains (180 entries);
  - the username, e-mail and avatar-image rules;
  - the customer-user loop and its `error_users` counter for duplicate
    usernames;
  - the admin loop, which stops at the first duplicate;
  - the customer loop;
  - the status draw list (10 × "paid", 3 × "pending");
  - the day loop, which creates `count_customers * 100 // 90` invoices on
    each of 90 days (90 invoices for a single customer).

Shared helpers are in `Text` and `Wrappers`:

- `Text` holds decimal numerals, ASCII lower-casing, character removal,
  `split`/`strip`/`join`, and repetition.
- `Wrappers` holds `Option` and `Result`.

Amounts are whole numbers of cents. Dates are `(year, month, day, second)`
tuples ordered lexicographically.

The e-mail suffix picks, drawn customers, drawn amounts and drawn statuses
are parameters, as are the Faker names and the current time. The database
enters only as the set of usernames it already holds, plus the rows it
returns.

Two points of the code shape the dashboard model:

- **The profit when a side has no invoices.** Line 66 of the dashboard view
  subtracts the two aggregate sums directly. A side with no invoices has a
  NULL sum, so the subtraction raises. `Dashboard.Profit` and
  `Dashboard.Get` return an error in that case, `Dashboard.ProfitOfTable`
  states exactly when the profit exists, and `Dashboard.NoInvoices` shows
  that the empty table fails.
- **The supplier reference.** `Invoice` declares only a non-null customer,
  while the dashboard filters on a `supplier` field as well.
  `Dashboard.Row` therefore carries an optional customer and an optional
  supplier, the schema the dashboard's queries assume.
  `Dashboard.ProfitFailsWhenEveryInvoiceHasCustomer` shows that over such a
  table, when every invoice has a customer, the profit fails.

## Model

| member | source | states |
|---|---|---|
| Settings.StatusValues | invoicing/settings.py:4-7 | the stored values of the status choices are exactly "pending" and "paid" |
| Models.StatusChoicesAreTwo | invoicing/models.py:42-44 | a status satisfies the field's choices exactly when it is "pending" or "paid" |
| Models.AmountFitsRange | invoicing/models.py:40 | an amount fits 11 digits with 2 decimal places exactly when it lies within ±99,999,999,999 cents |
| Models.NewInvoice | invoicing/models.py:41-44 | a new invoice keeps the given customer and amount; an omitted status becomes "pending" (a valid choice) and an omitted date becomes the current time; a given status or date is kept |
| Models.NewInvoiceValid | invoicing/models.py:34-44 | an invoice created from valid fields, with defaults for the omitted ones, meets every field constraint |
| Models.AmountStringRoundTrip | invoicing/models.py:40 | the two-decimal text of an amount has no space and reads back as the same amount, negative amounts included |
| Models.InvoiceStringRoundTrip | invoicing/models.py:46-47 | the string form `InvoiceString` ("status \| amount customer") gives back the status, the amount and the customer's name whenever the status has no space |
| Models.InsertByDate | invoicing/models.py:32 | inserting an invoice into a newest-first list keeps it newest-first and adds exactly that invoice |
| Models.ListingOrder | invoicing/models.py:32 | the listing order is a permutation of the invoices, newest date first |
| Dashboard.FilterCountSum | invoicing/views/dashboard_views.py:20-23 | the rows a filter selects are as many as the rows satisfying the condition, and their amounts total the reference sum |
| Dashboard.CountWherePositive | invoicing/views/dashboard_views.py:20-23 | the count is positive exactly when some row satisfies the condition |
| Dashboard.AlltimeStats | invoicing/views/dashboard_views.py:20-27 | the count is the number of invoices with no supplier; the sum is absent exactly when that count is 0 and otherwise is their total amount |
| Dashboard.AlltimeSupplierStats | invoicing/views/dashboard_views.py:30-39 | the same for the invoices with no customer |
| Dashboard.AverageTimesCount | invoicing/views/dashboard_views.py:49 | the mean of a non-empty group times its count is its total |
| Dashboard.GroupOf | invoicing/views/dashboard_views.py:42-50 | a month's group is dated the first of the month, counts and sums the customer-side invoices of that month, and has average × count = sum |
| Dashboard.GroupsFromBounds | invoicing/views/dashboard_views.py:42-50 | every group of the grouped query is a month of the current year with at least one customer-side invoice |
| Dashboard.GroupsFromAscending | invoicing/views/dashboard_views.py:51 | the groups come in strictly ascending month order |
| Dashboard.GroupsFromCovers | invoicing/views/dashboard_views.py:42-50 | every month with a customer-side invoice has a group |
| Dashboard.MonthKey | invoicing/views/dashboard_views.py:60 | the key is the two-digit month, a '-', then the year; its first two characters read back as the month |
| Dashboard.MonthKeyRoundTrip | invoicing/views/dashboard_views.py:60 | a month key reads back as its month and year |
| Dashboard.MonthKeyInjective | invoicing/views/dashboard_views.py:60 | distinct (month, year) pairs get distinct keys |
| Dashboard.Entries | invoicing/views/dashboard_views.py:54-60 | each group contributes the entry (its month key, its count, sum and average) in group order |
| Dashboard.PutWellFormed | invoicing/views/dashboard_views.py:60 | a dict assignment keeps each key listed once and listed exactly when mapped |
| Dashboard.DictOfSnoc | invoicing/views/dashboard_views.py:53-60 | the dict after one more loop iteration is the previous dict with one more assignment |
| Dashboard.KeyOfDictOf | invoicing/views/dashboard_views.py:53-60 | every key assigned in the loop is in the final dict |
| Dashboard.BuildMonthlyStats | invoicing/views/dashboard_views.py:53-60 | the loop builds the dict of the query's entries assigned in order, and the dict is well formed |
| Dashboard.DictOfOnlyEntries | invoicing/views/dashboard_views.py:53-60 | every key of the dict was assigned by some entry |
| Dashboard.DictOfKeys | invoicing/views/dashboard_views.py:53-60 | with distinct keys, the dict lists one key per entry, in entry order |
| Dashboard.DictOfValues | invoicing/views/dashboard_views.py:53-60 | with distinct keys, each entry's value is the one stored under its key |
| Dashboard.MonthlyEntries | invoicing/views/dashboard_views.py:42-60 | the grouped query's entries have pairwise distinct month keys |
| Dashboard.MonthKeyIfInvoices | invoicing/views/dashboard_views.py:42-60 | a month of the current year with a customer-side invoice has its key in `monthly_invoice_stats` |
| Dashboard.InvoicesIfMonthKey | invoicing/views/dashboard_views.py:42-60 | a month whose key is in `monthly_invoice_stats` has a customer-side invoice that year |
| Dashboard.MonthlyStatsOnlyMonthKeys | invoicing/views/dashboard_views.py:42-60 | every key of `monthly_invoice_stats` is the key of a month of the current year |
| Dashboard.MonthlyStatsKeys | invoicing/views/dashboard_views.py:42-60 | `monthly_invoice_stats` has a key for a month exactly when that month has customer-side invoices, and no other key |
| Dashboard.StatsOfGroup | invoicing/views/dashboard_views.py:54-59 | the statistics stored for a group are that month's count, sum and average |
| Dashboard.MonthValue | invoicing/views/dashboard_views.py:42-60 | the value under a month's key is that month's count, sum and an average with avg × count = sum |
| Dashboard.MonthlyStatsValues | invoicing/views/dashboard_views.py:42-60 | the same for every key of `monthly_invoice_stats` |
| Dashboard.MonthlyStatsOrder | invoicing/views/dashboard_views.py:51-60 | the keys of `monthly_invoice_stats` are inserted in strictly ascending month order |
| Dashboard.ProfitOfTable | invoicing/views/dashboard_views.py:66 | `Profit` of the two all-time statistics exists exactly when the table has a customer-side and a supplier-side invoice; it is then the customer-side total less the supplier-side total, and otherwise the NULL-sum error |
| Dashboard.Get | invoicing/views/dashboard_views.py:14-68 | the endpoint succeeds exactly when there is at least one customer-side and one supplier-side invoice; then the profit is the customer-side total less the supplier-side total and the payload holds the all-time and monthly statistics; otherwise it fails on the missing sum |
| Dashboard.ProfitFailsWhenEveryInvoiceHasCustomer | invoicing/views/dashboard_views.py:66 | over a table with an optional supplier in which every invoice has a customer, the supplier-side sum is NULL and the profit computation fails |
| Dashboard.ThreeInvoicesInOneMonth | invoicing/views/dashboard_views.py:42-50 | three invoices of 10.00, 20.00 and 30.00 in one month group to count 3, sum 60.00 and average 20.00 |
| Dashboard.ProfitOfOnePair | invoicing/views/dashboard_views.py:66 | one customer invoice of 50.00 and one supplier invoice of 30.00 give a profit of 20.00 |
| Dashboard.NoInvoices | invoicing/views/dashboard_views.py:20-66 | with no invoices both counts are 0, both sums are absent, and the profit fails |
| InvoicingSerializers.UpdateFieldwise | invoicing/serializers/invoicing_serializers.py:38-41 | `ApplyUpdate`: a supplied key sets its field to the supplied value, and a field changes only when its key is supplied |
| InvoicingSerializers.EmptyUpdateIsIdentity | invoicing/serializers/invoicing_serializers.py:38-41 | with none of the four keys supplied the invoice is unchanged |
| InvoicingSerializers.UpdateIdempotent | invoicing/serializers/invoicing_serializers.py:38-41 | applying the same update twice equals applying it once |
| InvoicingSerializers.UpdateCompose | invoicing/serializers/invoicing_serializers.py:38-41 | two updates in a row equal one update with the merged data, the later values winning |
| InvoicingSerializers.ExtraKeysIgnored | invoicing/serializers/invoicing_serializers.py:38-41 | keys other than the four invoice fields have no effect |
| InvoicingSerializers.UpdateKeepsValid | invoicing/serializers/invoicing_serializers.py:38-41 | a valid invoice updated with valid field values stays valid |
| InvoicingSerializers.FalsyValuesOverwrite | invoicing/serializers/invoicing_serializers.py:33-41 | presence, not truthiness, decides: a supplied zero amount and empty status overwrite the old values |
| InvoicingSerializers.UpdatedFieldsAreExposed | invoicing/serializers/invoicing_serializers.py:21-41 | the fields `update` assigns are the exposed fields except the hyperlink "url" |
| InvoicingSerializers.InvoiceInstance.Save | invoicing/serializers/invoicing_serializers.py:42 | saving writes the instance's fields to its stored row and changes nothing else |
| InvoicingSerializers.Update | invoicing/serializers/invoicing_serializers.py:29-43 | the instance's fields become the partial update of its old fields, the stored row equals them, the primary key is kept, and the same instance is returned |
| Serializers.SameInvoiceFields | invoicing/serializers.py:20-31 | this module's invoice and customer serializers expose the same fields as the package's, and `update` assigns all exposed invoice fields but "url" |
| Serializers.Update | invoicing/serializers.py:39-53 | the same partial update, save and return as the package's `update` |
| SeedDb.ExpandLength | invoicing/management/commands/seed_db.py:66-68 | the expanded list is as long as the summed weights |
| SeedDb.ExpandCount | invoicing/management/commands/seed_db.py:66-68 | each item occurs in the expanded list as often as its summed weight |
| SeedDb.ExpandBlock | invoicing/management/commands/seed_db.py:66-68 | item k fills a block of `weight` entries right after the blocks of the items before it |
| SeedDb.WeightOfDistinct | invoicing/management/commands/seed_db.py:59-68 | with distinct items, an item's summed weight is its own weight |
| SeedDb.ProviderWeights | invoicing/management/commands/seed_db.py:59-65 | the provider weights total 180 and the providers are distinct |
| SeedDb.EmailSuffixesLength | invoicing/management/commands/seed_db.py:59-68 | `email_suffixes` has 180 entries |
| SeedDb.EmailSuffixesCounts | invoicing/management/commands/seed_db.py:59-68 | each provider occurs in `email_suffixes` exactly its weight times |
| SeedDb.EmailSuffixesOrder | invoicing/management/commands/seed_db.py:59-68 | `email_suffixes` is 100 gmail.com, then 50 outlook.com, 20 yahoo.com, 5 protonmail.com and 5 tutanota.com |
| SeedDb.UsernameShape | invoicing/management/commands/seed_db.py:75 | `Username` (the rule at lines 75 and 101) is the lower-cased initial, a dot, then the lower-cased last name without spaces; it has no upper-case letter |
| SeedDb.UsernameSpaces | invoicing/management/commands/seed_db.py:75 | a username contains a space exactly when the first name starts with one |
| SeedDb.UsernameNotSuperuser | invoicing/management/commands/seed_db.py:75 | no generated username equals "superuser" |
| SeedDb.EmailSplits | invoicing/management/commands/seed_db.py:78 | the first '@' of a user's address splits it back into the username and the domain |
| SeedDb.UsernameHasNoAt | invoicing/management/commands/seed_db.py:75-78 | a username has no '@' when the names bring none |
| SeedDb.RemoveSpacesOfFullName | invoicing/management/commands/seed_db.py:115-119 | removing the spaces of "first last" gives the two names without spaces, run together |
| SeedDb.ImageUrlShape | invoicing/management/commands/seed_db.py:115-119 | `ImageUrl` of the full name is the robohash prefix followed by both names lower-cased without spaces; the path has no space |
| SeedDb.ImageEndsWithUsername | invoicing/management/commands/seed_db.py:119 | the image path ends with the part of the username after the dot |
| SeedDb.SeedCustomerFacts | invoicing/management/commands/seed_db.py:114-120 | a seeded customer belongs to its user, prints as the user's full name, and meets the model's constraints exactly when that name fits 128 characters |
| SeedDb.CreateCustomers | invoicing/management/commands/seed_db.py:114-121 | one customer per customer-group user, in order, owned by that user, named by the full name, with the robohash image |
| SeedDb.TwoRuns | invoicing/management/commands/seed_db.py:127-130 | stripping and splitting two runs of "word " gives the two runs of words |
| SeedDb.SeedStatusChoicesValue | invoicing/management/commands/seed_db.py:127-130 | the status draw list is ten "paid" followed by three "pending" |
| SeedDb.SeedStatusChoicesValid | invoicing/management/commands/seed_db.py:127-130 | the draw list has 13 entries, each a valid status |
| SeedDb.SeedStatusChoicesCounts | invoicing/management/commands/seed_db.py:127-130 | "paid" occurs 10 times and "pending" 3 times in the draw list |
| SeedDb.SeedInvoiceCount | invoicing/management/commands/seed_db.py:131-133 | with `InvoicesPerDay` per day the loop creates 90 × per-day invoices, fewer than 90 short of 100 per customer and never more, and 90 for one customer |
| SeedDb.DayPlanLength | invoicing/management/commands/seed_db.py:131-133 | the day loop creates days × per-day invoices |
| SeedDb.DayPlanPrefix | invoicing/management/commands/seed_db.py:131-133 | the invoices of the first days are the start of the invoices of all days |
| SeedDb.DayPlanCount | invoicing/management/commands/seed_db.py:131-133 | each day offset below 90 gets exactly the per-day count of invoices, and no other offset gets any |
| SeedDb.DayPlanAscending | invoicing/management/commands/seed_db.py:131-133 | offsets never decrease in creation order, and each is below the number of days |
| SeedDb.CustomerCandidateFacts | invoicing/management/commands/seed_db.py:73-82 | the i-th user attempted keeps the i-th names, its username is the initial, a dot and the lower-cased last name without spaces, never "superuser", and when the names hold no '@' its address splits at the first '@' into the username and the i-th drawn domain |
| SeedDb.CustomerUserFacts | invoicing/management/commands/seed_db.py:75-82 | a user built from a name pair and a domain keeps the names, follows the username rule, is never "superuser", and without '@' in the names its address splits back into username and domain |
| SeedDb.CreateCustomerUsers | invoicing/management/commands/seed_db.py:71-91 | the loop's outcome is `Register` of its candidates; `error_users` plus the users created is 100; afterwards the database holds the earlier usernames and every candidate's |
| SeedDb.RegisterCount | invoicing/management/commands/seed_db.py:71-88 | `Register`: every attempt is a success or an error, so errors plus created users equal the attempts |
| SeedDb.RegisterTaken | invoicing/management/commands/seed_db.py:72-88 | the database afterwards holds the earlier usernames plus every candidate's username |
| SeedDb.RegisterDistinct | invoicing/management/commands/seed_db.py:72-88 | the users created have distinct usernames, none of them taken before, one per new username |
| SeedDb.RegisterCreated | invoicing/management/commands/seed_db.py:72-88 | every user created is an attempted candidate; an attempt creates its user exactly when its username is still free |
| SeedDb.CustomerCandidateNames | invoicing/management/commands/seed_db.py:75 | the attempted usernames are the usernames of the name pairs |
| SeedDb.AdminCandidateFacts | invoicing/management/commands/seed_db.py:100-108 | the i-th admin attempted keeps the i-th names, follows the username rule, is never "superuser", and without '@' in the names its address splits into the username and "ocg.com" |
| SeedDb.CreateAdmins | invoicing/management/commands/seed_db.py:97-112 | the loop's outcome is `RegisterAdmins` of its five candidates |
| SeedDb.AdminsStayAborted | invoicing/management/commands/seed_db.py:100-108 | once a duplicate stops the command, later iterations change nothing |
| SeedDb.RegisterAdminsPrefix | invoicing/management/commands/seed_db.py:97-112 | `RegisterAdmins`: the admins created are the first candidates in order, each new to the database and distinct; the command stops exactly when fewer than all are created, at a candidate whose username is taken |
| SeedDb.SeedInvoices | invoicing/management/commands/seed_db.py:123-140 | invoice k has the k-th drawn customer, amount and status and is dated by the day plan; there are as many invoices as the plan has entries |
| SeedDb.SeedInvoicesFacts | invoicing/management/commands/seed_db.py:127-139 | every seeded invoice has a valid status, the drawn customer and amount, and a day offset below 90 |
| Text.LowerSpec | invoicing/management/commands/seed_db.py:75 | lower-casing keeps the length and maps each character independently |
| Text.LowerConcat | invoicing/management/commands/seed_db.py:75 | lower-casing distributes over concatenation |
| Text.Remove | invoicing/management/commands/seed_db.py:75 | removing a character leaves none of it and keeps every other character, counted by multiplicity |
| Text.LowerRemoveCommute | invoicing/management/commands/seed_db.py:119 | lower-casing and removing spaces commute |
| Text.RepeatStripSplit | invoicing/management/commands/seed_db.py:128 | stripping and splitting n copies of "word " gives n copies of the word |
| Text.SplitJoin | invoicing/management/commands/seed_db.py:128 | splitting undoes joining when no word holds the separator |
| Text.DecimalLengthBound | invoicing/models.py:40 | a numeral has at most k digits exactly when the number is below 10^k |
| Text.TwoDigits | invoicing/views/dashboard_views.py:60 | the zero-padded month has two digits and reads back as the month |

## Left out

- Persistence: `save`, `create`, `get_or_create`, queries and groups/permissions. Rows and existing usernames are values passed in, and `save` writes a stored copy on the instance.
- Superuser creation (seed_db.py 42-53): only its username enters the model, through `SeedDb.UsernameNotSuperuser`.
- The group and permission setup (seed_db.py 24-39) and the logging calls.
- HTTP: routing, authentication, the admin site and the user serializers. These are not part of this model.
- `InvoiceSerializer.create`: it forwards to the model's constructor, whose defaults `Models.NewInvoice` models.
- Faker names, `random.choice` and `random.random`: the names and picks are parameters.
- Floating-point amounts: amounts are whole cents, and the drawn amount is given in cents.
- The clock: `datetime.now` is a parameter, and a seeded invoice records its day offset rather than a calendar date (no `timedelta` arithmetic).
- Dashboard.GroupOf: the average is the exact rational mean; the database's decimal rounding of `Avg` is not modelled.
- Dashboard.MonthKey: the year is written as plain decimal digits, and platform-specific padding of years below 1000 is not modelled.
- Text.Lower: lower-cases ASCII letters only; Unicode case mapping is not modelled.
- SeedDb.CreateCustomerUsers: the only integrity error modelled is a duplicate username. It requires non-empty first names, where the source raises an uncaught `IndexError`.
- SeedDb.CreateAdmins: the uncaught integrity error that ends the command is modelled as the `aborted` flag. It requires non-empty first names, where the source raises an uncaught `IndexError`.
- SeedDb.SeedInvoices: does not state that the drawn customer indices lie within the customer list, since the list itself is not modelled.
- SeedDb.CreateCustomers: the order in which the database returns the customer-group users is taken as given.
- Dashboard.Row: assumes a schema in which an invoice has both an optional customer and an optional supplier. Against the `Invoice` model as declared, which has no `supplier` field, the dashboard's `supplier__isnull` filter raises a `FieldError`, and that failure is not modelled.
