# FinanceTamer core, modelled in Dafny

FinanceTamer is an iOS personal-finance app. Users record income and expense
transactions against a bank account, group them by category, browse their history
for a period, and analyse the expenses in a chart. This project models the app's
core and proves properties about it. The core covers:

- the value types and their text codecs. These are the CSV line and JSON
  dictionary of a transaction, and the `Codable` forms of a category and a bank
  account.
- the local stores: the JSON file cache, and the SwiftData stores of transactions,
  accounts and categories with their backup stores.
- the mock services that sit on those stores.
- the view models and view logic of the app's screens: the transaction list, the
  history, the editor with its amount field, the account score, the categories
  screen with its fuzzy search, the balance chart, the analysis table and the pie
  chart's colours.

The Foundation conversions are not modelled as code. This covers
`Decimal(string:)`, `Decimal.description`, `ISO8601DateFormatter` and
`lowercased()`. They are function-valued fields of `Foundation.Formatters`, and
the predicate `Foundation.Lawful` states the laws that the round trips need. The
description of a finite decimal parses back, and whatever `Decimal(string:)` reads
is a finite decimal. An ISO date text parses back. Neither kind of text contains a
comma. A finite decimal is a `real` of the form m / 10^e (`Foundation.IsDecimal`),
which is what a Swift `Decimal` can hold. The lemma `LawfulFormatters.LawfulExists`
builds formatters that meet every law at once, so the lemmas that require
`Lawful` are not vacuous. In the same way, `JsonBytes.LawfulJsonDataExists` builds
a byte serialization that reads back every JSON value whose numbers are finite
decimals, the law `AccountsBackup.LawfulJsonData` that the account backup needs.

A `Date` is a whole number of seconds in a fixed time zone, with 86400-second days
(`Calendar`). A `Decimal` is a `real`, and the round trips are stated for finite decimals. A Swift `Int` is the subset type `Int64`,
and the id arithmetic that could leave it is guarded.

The code falls into two kinds:

- Code that computes values is modelled by functions and lemmas.
- Objects that update their fields become classes. Their fields are `seq`, `map`
  or `Option` values, and their methods carry `modifies` clauses.

Whatever the source reaches over the network, the clock, a task or a SwiftData
context becomes a parameter of the method. Examples are a fetched list, a
`Result` of a remote call, `Date()` and `Task.isCancelled`. Each method states its
new state in terms of the old state and those parameters.

Module layout follows the source files. The exception is the shared helpers:
`Wrappers`, `Seqs`, `Text`, `IntText`, `Json`, `Calendar` and `Foundation`. The modules `LawfulFormatters` and `JsonBytes` hold the witnesses for the
Foundation and JSON laws.

## Model

Paths are relative to the repository root.

| member | source | states |
|---|---|---|
| Models.DirectionFromRawValue | FinanceTamer/FinanceTamer/Models/Direction.swift:4-7 | `Direction(rawValue:)` inverts `rawValue`: a found direction has that raw value, and each direction whose raw value is the text is found |
| Models.CurrencyFromRawValue | FinanceTamer/FinanceTamer/Models/Currency.swift:1-5 | `Currency(rawValue:)` inverts `rawValue` in both directions, for "RUB", "USD" and "EUR" |
| IntText.ParseInt | FinanceTamer/FinanceTamer/Extensions/Transaction+CSV.swift:11-13 | `Int(_:)` gives a value only for an optional sign followed by one or more digits |
| IntText.ParseShowInt | FinanceTamer/FinanceTamer/Extensions/Transaction+CSV.swift:11-13 | every `Int` written in decimal reads back as itself |
| IntText.ShowIntHasNoComma | FinanceTamer/FinanceTamer/Extensions/Transaction+CSV.swift:42-44 | the decimal text of an integer holds no comma, so an id never splits a CSV line |
| Json.DecodeInt | FinanceTamer/FinanceTamer/Models/Category.swift:30 | `decode(Int.self, forKey:)` succeeds exactly when the key holds a whole number in `Int` range, written with or without a zero fraction (`5` or `5.0`), and returns that integer |
| Json.DecodeString | FinanceTamer/FinanceTamer/Models/Category.swift:31 | `decode(String.self, forKey:)` succeeds exactly when the key holds a string, and returns it |
| Json.DecodeBool | FinanceTamer/FinanceTamer/Models/Category.swift:43 | `decode(Bool.self, forKey:)` succeeds exactly when the key holds a Boolean, and returns it |
| Json.DecodeDate | FinanceTamer/FinanceTamer/Models/BankAccount.swift:44-45 | `decode(Date.self, forKey:)` succeeds exactly when the key holds a number of seconds; a whole number is returned as it is, a fractional one rounded down |
| CategoryModel.WithIsIncome | FinanceTamer/FinanceTamer/Models/Category.swift:20-26 | the `isIncome` initialiser keeps id, name and emoji, and the direction is income iff `isIncome` |
| CategoryModel.WithIsIncomeAgrees | FinanceTamer/FinanceTamer/Models/Category.swift:13-26 | the `isIncome` initialiser given `direction == .income` builds the same category as the memberwise one |
| CategoryModel.Encode | FinanceTamer/FinanceTamer/Models/Category.swift:47-53 | `encode(to:)` writes exactly the four coding keys, the emoji as a one-character string and `isIncome` as `direction == .income` |
| CategoryModel.DecodeSucceeds | FinanceTamer/FinanceTamer/Models/Category.swift:28-45 | decoding succeeds iff `id`, `name`, a non-empty `emoji` string and `isIncome` all decode |
| CategoryModel.DecodedFields | FinanceTamer/FinanceTamer/Models/Category.swift:28-45 | a decoded category takes the first character of the emoji string, and its direction is income iff `isIncome` is true |
| CategoryModel.DecodeRejectsEmptyEmoji | FinanceTamer/FinanceTamer/Models/Category.swift:33-40 | an empty emoji string fails with data-corrupted "emoji string is empty" on key `emoji` |
| CategoryModel.DecodeEncode | FinanceTamer/FinanceTamer/Models/Category.swift:28-53 | decoding what `encode(to:)` wrote gives back the category |
| BankAccountModel.Encode | FinanceTamer/FinanceTamer/Models/BankAccount.swift:48-57 | `encode(to:)` writes the seven coding keys, with the balance as its description string |
| BankAccountModel.DecodeSucceeds | FinanceTamer/FinanceTamer/Models/BankAccount.swift:28-46 | decoding succeeds iff every key decodes and the balance string is a valid decimal |
| BankAccountModel.DecodeRejectsBadBalance | FinanceTamer/FinanceTamer/Models/BankAccount.swift:35-42 | a balance string that is not a decimal fails with data-corrupted on key `balance` |
| BankAccountModel.DecodeRejectsNumericBalance | FinanceTamer/FinanceTamer/Models/BankAccount.swift:35 | a balance given as a JSON number, not a string, is a type mismatch |
| BankAccountModel.DecodeEncode | FinanceTamer/FinanceTamer/Models/BankAccount.swift:28-57 | decoding what `encode(to:)` wrote gives back the account, for a balance that is a finite decimal |
| BankAccountModel.DecodedReencodes | FinanceTamer/FinanceTamer/Models/BankAccount.swift:28-57 | every account that decodes has a finite-decimal balance, and encoding it and decoding again gives the same account |
| Text.SplitWhere | FinanceTamer/FinanceTamer/Extensions/Transaction+CSV.swift:8 | `components(separatedBy:)` gives at least one piece, and no piece holds a separator |
| Text.SplitJoin | FinanceTamer/FinanceTamer/Extensions/Transaction+CSV.swift:8 | splitting the join of separator-free pieces gives back those pieces |
| Text.JoinSplit | FinanceTamer/FinanceTamer/Extensions/Transaction+CSV.swift:56 | joining the pieces of a split with the same separator gives back the string |
| TransactionCsv.Fields | FinanceTamer/FinanceTamer/Extensions/Transaction+CSV.swift:42-54 | the line has seven fixed fields, and an eighth holding the comment when there is one |
| TransactionCsv.ParseNeedsSevenFields | FinanceTamer/FinanceTamer/Extensions/Transaction+CSV.swift:9 | a line with fewer than seven components is never a transaction, in either parser |
| TransactionCsv.ParseSucceeds | FinanceTamer/FinanceTamer/Extensions/Transaction+CSV.swift:7-37 | parsing succeeds iff there are at least seven components, three are `Int`s, one is a decimal and three are ISO dates; each field then comes from its component and the comment is component 7 when there is one |
| TransactionCsv.FixedFieldsHaveNoComma | FinanceTamer/FinanceTamer/Extensions/Transaction+CSV.swift:42-50 | none of the seven fixed fields contains a comma |
| TransactionCsv.FixedFieldsParseBack | FinanceTamer/FinanceTamer/Extensions/Transaction+CSV.swift:11-23 | components equal to the seven fixed fields parse back to the transaction's fixed fields, for an amount that is a finite decimal |
| TransactionCsv.ParseCsvString | FinanceTamer/FinanceTamer/Extensions/Transaction+CSV.swift:7-57 | `parse(csvString: t.csvString) == t` whenever the comment holds no comma and the amount is a finite decimal |
| TransactionCsv.EmptyCommentIsTrailingComma | FinanceTamer/FinanceTamer/Extensions/Transaction+CSV.swift:52-56 | an empty comment is written as a trailing comma and reads back as an empty comment, not as none |
| TransactionCsv.ParseCutsCommentAtComma | FinanceTamer/FinanceTamer/Extensions/Transaction+CSV.swift:25 | as written, a comment containing a comma reads back cut at its first comma, so the round trip fails |
| TransactionCsv.CommaCommentExample | FinanceTamer/FinanceTamer/Extensions/Transaction+CSV.swift:25 | the comment "Test, comment" reads back as "Test" |
| TransactionCsv.ParseKeepingCommentCsvString | FinanceTamer/FinanceTamer/Extensions/Transaction+CSV.swift:7-57 | with the comment taken as everything after the seventh comma, every transaction with a finite-decimal amount round-trips |
| TransactionCsv.ParsePrintParse | FinanceTamer/FinanceTamer/Extensions/Transaction+CSV.swift:7-57 | a transaction parsed from any line prints to a line that parses back to it |
| TransactionCsv.ParsersAgreeWithoutExtraFields | FinanceTamer/FinanceTamer/Extensions/Transaction+CSV.swift:25 | the two parsers agree on every line with at most eight components |
| TransactionJson.ToJson | FinanceTamer/FinanceTamer/Extensions/Transaction+JSON.swift:74-91 | `jsonObject` is a dictionary with the seven required keys, plus `comment` exactly when the comment is present |
| TransactionJson.NonObjectIsInvalid | FinanceTamer/FinanceTamer/Extensions/Transaction+JSON.swift:9-11 | anything but a dictionary throws `invalidJSONStructure` |
| TransactionJson.FirstMissingKeyReported | FinanceTamer/FinanceTamer/Extensions/Transaction+JSON.swift:13-39 | the first required key, in source order, that is missing or of the wrong type is reported as `missingRequiredField` |
| TransactionJson.StringIdIsMissing | FinanceTamer/FinanceTamer/Extensions/Transaction+JSON.swift:13-15 | an id given as a string counts as a missing `id` |
| TransactionJson.BadAmountReported | FinanceTamer/FinanceTamer/Extensions/Transaction+JSON.swift:41-43 | an amount string that is not a decimal throws `invalidAmountFormat` carrying that string |
| TransactionJson.FirstBadDateReported | FinanceTamer/FinanceTamer/Extensions/Transaction+JSON.swift:45-57 | the first unparseable date, in source order, throws `invalidDateFormat` with the key and the text |
| TransactionJson.ParseSucceeds | FinanceTamer/FinanceTamer/Extensions/Transaction+JSON.swift:8-71 | parsing succeeds iff every required key is present with its type (the three ids as whole numbers in `Int` range, `5.0` included), the amount is a decimal and the three dates parse |
| TransactionJson.CommentIsOptional | FinanceTamer/FinanceTamer/Extensions/Transaction+JSON.swift:59 | the comment is the `comment` string when there is one, and none otherwise, including when it is not a string |
| TransactionJson.ParseToJson | FinanceTamer/FinanceTamer/Extensions/Transaction+JSON.swift:8-91 | `parse(jsonObject: t.jsonObject) == t` for every transaction whose amount is a finite decimal |
| TransactionJson.ParsedRoundTrips | FinanceTamer/FinanceTamer/Extensions/Transaction+JSON.swift:8-91 | a transaction parsed from any dictionary has a finite-decimal amount, and its `jsonObject` parses back to it |
| BalanceData.Balance | FinanceTamer/FinanceTamer/Views/Features/Management/BalanceData.swift:7 | the shown balance is non-negative and is the original balance or its negation |
| BalanceData.BalanceAndSign | FinanceTamer/FinanceTamer/Views/Features/Management/BalanceData.swift:7-8 | zero counts as positive, and the original balance is recovered from the shown balance and its sign |
| CategoriesService.AllCategories | FinanceTamer/FinanceTamer/Services/CategoriesService.swift:16-19 | `categories()` returns seven categories with ids 1 to 7, all distinct; the first two are income and the rest are expenses |
| CategoriesService.CategoriesFor | FinanceTamer/FinanceTamer/Services/CategoriesService.swift:22-25 | `categories(for:)` returns only categories of the asked direction |
| CategoriesService.CategoriesForMember | FinanceTamer/FinanceTamer/Services/CategoriesService.swift:22-25 | a category is in `categories(for: d)` iff it is in the table with direction `d` |
| CategoriesService.CategoriesForPartition | FinanceTamer/FinanceTamer/Services/CategoriesService.swift:5-25 | the income and expense lists together are the table, as a multiset, and share no category |
| TransactionCategory.CategoryOf | FinanceTamer/FinanceTamer/Extensions/Transaction+Category.swift:4-7 | `category` is the table entry with the transaction's category id, and is income iff the id is 1 or 2 |
| BankAccountsService.BankAccountsService.constructor | FinanceTamer/FinanceTamer/Services/BankAccountsService.swift:5-7 | the service starts with one account of user 1, "Основной счёт", holding 10000 RUB |
| BankAccountsService.BankAccountsService.GetPrimaryAccount | FinanceTamer/FinanceTamer/Services/BankAccountsService.swift:10-16 | the first account of the user is returned; when the user has none, the error is `NSError("No accounts available", 404)` |
| BankAccountsService.BankAccountsService.UpdateAccount | FinanceTamer/FinanceTamer/Services/BankAccountsService.swift:19-26 | the first account with the same id is replaced; when there is none, the list is unchanged and the error is `NSError("Account not found", 404)` |
| FileCache.UpsertShape | FinanceTamer/FinanceTamer/Services/TransactionsFileCache.swift:24-28 | when some entry has the id, the first such entry is replaced; when none has it, the transaction is appended |
| FileCache.UpsertKeepsUniqueIds | FinanceTamer/FinanceTamer/Services/TransactionsFileCache.swift:22-31 | adding keeps ids unique, the transaction is then in the list, and it is the only entry with its id |
| FileCache.RemoveIdShape | FinanceTamer/FinanceTamer/Services/TransactionsFileCache.swift:34-39 | after removal no entry has the id, every other entry stays, and a list without the id is unchanged |
| FileCache.RemoveIdKeepsUniqueIds | FinanceTamer/FinanceTamer/Services/TransactionsFileCache.swift:34-39 | removing keeps ids unique |
| FileCache.LoadAfterSave | FinanceTamer/FinanceTamer/Services/TransactionsFileCache.swift:42-59 | loading the file that `saveToFile` wrote gives back the same list, when every amount is a finite decimal |
| FileCache.SaveAfterLoad | FinanceTamer/FinanceTamer/Services/TransactionsFileCache.swift:42-59 | saving what was loaded from any array and loading it again gives the same list |
| FileCache.DecodedSkipsCorrupt | FinanceTamer/FinanceTamer/Services/TransactionsFileCache.swift:56-58 | loading keeps at most one transaction per array entry, and a transaction is loaded iff some entry parses to it |
| FileCache.TransactionsFileCache.constructor | FinanceTamer/FinanceTamer/Services/TransactionsFileCache.swift:14-17 | the cache starts empty over the given file |
| FileCache.TransactionsFileCache.SaveToFile | FinanceTamer/FinanceTamer/Services/TransactionsFileCache.swift:42-46 | a successful write stores the array of the transactions' dictionaries; a failed one leaves the file and throws its error |
| FileCache.TransactionsFileCache.AddTransaction | FinanceTamer/FinanceTamer/Services/TransactionsFileCache.swift:22-31 | the list becomes the upsert, and the new list is written to the file |
| FileCache.TransactionsFileCache.RemoveTransaction | FinanceTamer/FinanceTamer/Services/TransactionsFileCache.swift:34-39 | every entry with the id is removed, and the new list is written to the file |
| FileCache.TransactionsFileCache.LoadFromFile | FinanceTamer/FinanceTamer/Services/TransactionsFileCache.swift:49-59 | a missing file empties the list; an unreadable one throws and keeps it; otherwise the list is the parseable entries, and anything but an array reads as empty |
| TransactionsService.MaxId | FinanceTamer/FinanceTamer/Services/TransactionsService.swift:11 | the largest id, or 0 for an empty list |
| TransactionsService.TransactionsService.constructor | FinanceTamer/FinanceTamer/Services/TransactionsService.swift:8-12 | the cache is loaded, errors ignored, and the next id is one more than the largest cached id |
| TransactionsService.TransactionsService.GetTransactions | FinanceTamer/FinanceTamer/Services/TransactionsService.swift:15-18 | only transactions dated within the closed period are returned |
| TransactionsService.GetTransactionsMember | FinanceTamer/FinanceTamer/Services/TransactionsService.swift:17 | a transaction is returned iff it is cached and dated within the closed period |
| TransactionsService.TransactionsService.CreateTransaction | FinanceTamer/FinanceTamer/Services/TransactionsService.swift:21-42 | the new transaction takes the next id, is stamped `now` and is appended; the next id grows by one, even when the write fails; a successful write stores the new list in the file, a failed one leaves the file |
| TransactionsService.TransactionsService.UpdateTransaction | FinanceTamer/FinanceTamer/Services/TransactionsService.swift:45-48 | the cache is upserted with the transaction; a successful write stores the new list in the file, a failed one leaves the file |
| TransactionsService.TransactionsService.DeleteTransaction | FinanceTamer/FinanceTamer/Services/TransactionsService.swift:51-54 | every transaction with the id is removed from the cache; a successful write stores the new list in the file, a failed one leaves the file |
| TransactionsService.NewIdIsAppended | FinanceTamer/FinanceTamer/Services/TransactionsService.swift:29-40 | a transaction whose id is above every cached id is appended, never replacing an entry |
| TransactionsService.UpsertBelow | FinanceTamer/FinanceTamer/Services/TransactionsService.swift:45-48 | an update with an id below the next id keeps every id below it |
| TransactionsService.RemoveBelow | FinanceTamer/FinanceTamer/Services/TransactionsService.swift:51-54 | removal keeps every id below the next id |
| SwiftDataTransactions.ToResponse | FinanceTamer/FinanceTamer/Services/Storage/SwiftDataTransactionStorage.swift:21-32 | `toResponse()` keeps id, amount, date and comment, puts in the placeholder account and an expense category "💸" with the stored id, and stamps both dates with the transaction date |
| SwiftDataTransactions.FromResponse | FinanceTamer/FinanceTamer/Services/Storage/SwiftDataTransactionStorage.swift:34-36 | `fromResponse` keeps id, amount, category id, date and comment |
| SwiftDataTransactions.ToResponseFromResponse | FinanceTamer/FinanceTamer/Services/Storage/SwiftDataTransactionStorage.swift:21-36 | a stored response reads back with the same id, amount, category id, date and comment |
| SwiftDataTransactions.RoundTripLosesDirection | FinanceTamer/FinanceTamer/Services/Storage/SwiftDataTransactionStorage.swift:25 | an income transaction never reads back equal to what was stored, because its category comes back as an expense |
| SwiftDataTransactions.Updated | FinanceTamer/FinanceTamer/Services/Storage/SwiftDataTransactionStorage.swift:64-67 | an update keeps the record's id and takes amount, category id, date and comment from the response |
| SwiftDataTransactions.SwiftDataTransactionsStorage.constructor | FinanceTamer/FinanceTamer/Services/Storage/SwiftDataTransactionStorage.swift:43-45 | a fresh store holds no record |
| SwiftDataTransactions.SwiftDataTransactionsStorage.GetAllTransactions | FinanceTamer/FinanceTamer/Services/Storage/SwiftDataTransactionStorage.swift:47-51 | one response per record, in fetch order, each converting back to its record |
| SwiftDataTransactions.SwiftDataTransactionsStorage.CreateTransaction | FinanceTamer/FinanceTamer/Services/Storage/SwiftDataTransactionStorage.swift:53-58 | the converted response is appended |
| SwiftDataTransactions.SwiftDataTransactionsStorage.UpdateTransaction | FinanceTamer/FinanceTamer/Services/Storage/SwiftDataTransactionStorage.swift:60-70 | the first record with the id is updated; without one nothing changes |
| SwiftDataTransactions.SwiftDataTransactionsStorage.DeleteTransaction | FinanceTamer/FinanceTamer/Services/Storage/SwiftDataTransactionStorage.swift:72-79 | the first record with the id is removed; without one nothing changes |
| SwiftDataAccounts.ToBankAccount | FinanceTamer/FinanceTamer/Services/Storage/SwiftDataBankAccountsStorage.swift:16-26 | `toBankAccount()` keeps id, name and balance, with no user id, currency "RUB" and empty dates |
| SwiftDataAccounts.FromBankAccount | FinanceTamer/FinanceTamer/Services/Storage/SwiftDataBankAccountsStorage.swift:28-30 | `fromBankAccount` keeps id, name and balance |
| SwiftDataAccounts.ConversionRoundTrips | FinanceTamer/FinanceTamer/Services/Storage/SwiftDataBankAccountsStorage.swift:16-30 | a record survives the round trip exactly; an account comes back with only its user id, currency and dates reset |
| SwiftDataAccounts.SwiftDataBankAccountsStorage.constructor | FinanceTamer/FinanceTamer/Services/Storage/SwiftDataBankAccountsStorage.swift:37-39 | a fresh store holds no record |
| SwiftDataAccounts.SwiftDataBankAccountsStorage.GetAllAccounts | FinanceTamer/FinanceTamer/Services/Storage/SwiftDataBankAccountsStorage.swift:41-45 | one account per record, in fetch order, each converting back to its record |
| SwiftDataAccounts.SwiftDataBankAccountsStorage.UpdateAccount | FinanceTamer/FinanceTamer/Services/Storage/SwiftDataBankAccountsStorage.swift:47-55 | the first record with the account's id takes its name and balance; without one nothing changes |
| SwiftDataAccounts.SwiftDataBankAccountsStorage.CreateAccount | FinanceTamer/FinanceTamer/Services/Storage/SwiftDataBankAccountsStorage.swift:57-62 | the converted account is appended |
| SwiftDataAccounts.SwiftDataBankAccountsStorage.DeleteAccount | FinanceTamer/FinanceTamer/Services/Storage/SwiftDataBankAccountsStorage.swift:64-71 | the first record with the id is removed; without one nothing changes |
| SwiftDataCategories.ToCategory | FinanceTamer/FinanceTamer/Services/Storage/SwiftDataCategoriesStorage.swift:18-20 | `toCategory()` takes the emoji's first character or a space, and the direction from its raw value or `.outcome` |
| SwiftDataCategories.FromCategory | FinanceTamer/FinanceTamer/Services/Storage/SwiftDataCategoriesStorage.swift:22-24 | `fromCategory` stores the emoji as a one-character string and a raw value that reads back as the direction |
| SwiftDataCategories.ToCategoryFromCategory | FinanceTamer/FinanceTamer/Services/Storage/SwiftDataCategoriesStorage.swift:18-24 | every category survives being stored and read back |
| SwiftDataCategories.SwiftDataCategoriesStorage.constructor | FinanceTamer/FinanceTamer/Services/Storage/SwiftDataCategoriesStorage.swift:31-33 | a fresh store holds no record |
| SwiftDataCategories.SwiftDataCategoriesStorage.GetAllCategories | FinanceTamer/FinanceTamer/Services/Storage/SwiftDataCategoriesStorage.swift:35-39 | one category per record, in fetch order, each the record's conversion |
| SwiftDataCategories.SwiftDataCategoriesStorage.SaveCategories | FinanceTamer/FinanceTamer/Services/Storage/SwiftDataCategoriesStorage.swift:41-52 | the old records are replaced by the given categories, and listing the store then gives back exactly those categories |
| BackupStorage.OperationTypeFromRawValue | FinanceTamer/FinanceTamer/Services/Storage/SwiftDataTransactionsBackupStorage.swift:18 | `BackupOperationType(rawValue:)` inverts `rawValue` in both directions |
| BackupStorage.ToBackupOperation | FinanceTamer/FinanceTamer/Services/Storage/SwiftDataTransactionsBackupStorage.swift:16-20 | `toBackupOperation()` is nil iff the payload does not decode or the type is unknown; otherwise it keeps the id, the type and the decoded payload |
| BackupStorage.FromBackupOperation | FinanceTamer/FinanceTamer/Services/Storage/SwiftDataTransactionsBackupStorage.swift:22-25 | `fromBackupOperation` is nil iff the payload does not encode; otherwise it keeps the id, the type's raw value and the encoded payload |
| BackupStorage.ToFromBackupOperation | FinanceTamer/FinanceTamer/Services/Storage/SwiftDataTransactionsBackupStorage.swift:16-25 | with a codec that reads back what it writes, an encodable operation survives being stored and read back |
| BackupStorage.SwiftDataBackupStorage.constructor | FinanceTamer/FinanceTamer/Services/Storage/SwiftDataTransactionsBackupStorage.swift:32-34 | a fresh store holds no record |
| BackupStorage.SwiftDataBackupStorage.GetAllBackupOperations | FinanceTamer/FinanceTamer/Services/Storage/SwiftDataTransactionsBackupStorage.swift:36-40 | records that do not read back are skipped, so there are at most as many operations as records |
| BackupStorage.ListingMember | FinanceTamer/FinanceTamer/Services/Storage/SwiftDataTransactionsBackupStorage.swift:39 | an operation is listed iff some record reads back as it |
| BackupStorage.SwiftDataBackupStorage.AddBackupOperation | FinanceTamer/FinanceTamer/Services/Storage/SwiftDataTransactionsBackupStorage.swift:42-47 | an encodable operation is appended as a record; one that does not encode is silently dropped |
| BackupStorage.ListingAfterAdd | FinanceTamer/FinanceTamer/Services/Storage/SwiftDataTransactionsBackupStorage.swift:36-47 | with a lawful codec, the listing after adding an operation is the old listing followed by that operation |
| BackupStorage.SwiftDataBackupStorage.RemoveBackupOperation | FinanceTamer/FinanceTamer/Services/Storage/SwiftDataTransactionsBackupStorage.swift:49-56 | the first record with the id is removed; without one nothing changes |
| AccountsBackup.AccountBackupRoundTrip | FinanceTamer/FinanceTamer/Services/Storage/SwiftDataBankAccountsBackupStorage.swift:16-25 | every account backup operation whose balance is a finite decimal is stored and read back unchanged |
| AccountsBackup.AccountRoundTrip | FinanceTamer/FinanceTamer/Services/Storage/SwiftDataBankAccountsBackupStorage.swift:17-23 | the `JSONEncoder`/`JSONDecoder` codec of a bank account encodes every account with a finite-decimal balance and reads it back |
| AccountsBackup.DecodedAccountRoundTrips | FinanceTamer/FinanceTamer/Services/Storage/SwiftDataBankAccountsBackupStorage.swift:17-23 | every account decoded from bytes has a finite-decimal balance, and encoding and decoding it again gives the same account |
| AccountsBackup.CorruptAccountRecord | FinanceTamer/FinanceTamer/Services/Storage/SwiftDataBankAccountsBackupStorage.swift:17-18 | a record whose data is not an account dictionary, or one whose account does not decode, reads back as nil |
| Levenshtein.NextRow | FinanceTamer/FinanceTamer/Utilities/FuzzySearch.swift:127-131 | one pass of the inner loop turns row `i` of the edit-distance table into row `i + 1` |
| Levenshtein.LevenshteinDistance | FinanceTamer/FinanceTamer/Utilities/FuzzySearch.swift:122-134 | the two-row loop returns the edit distance of the two strings |
| Levenshtein.EditDistanceIsStandard | FinanceTamer/FinanceTamer/Utilities/FuzzySearch.swift:122-134 | the table the loop fills agrees with the textbook insert/delete/substitute recursion |
| Levenshtein.EditDistanceFacts | FinanceTamer/FinanceTamer/Utilities/FuzzySearch.swift:122-134 | a string is at distance 0 from itself, at its length from the empty string, and at most the longer length from any string |
| FuzzySearch.ZeroDistance | FinanceTamer/FinanceTamer/Utilities/FuzzySearch.swift:122-134 | the distance is 0 iff the strings are equal |
| FuzzySearch.Transliterate | FinanceTamer/FinanceTamer/Utilities/FuzzySearch.swift:87-120 | the loop appends one piece per character, in order |
| FuzzySearch.ForwardPiece | FinanceTamer/FinanceTamer/Utilities/FuzzySearch.swift:116 | forward transliteration maps a character through the table, and keeps a character the table lacks |
| FuzzySearch.BackwardPiece | FinanceTamer/FinanceTamer/Utilities/FuzzySearch.swift:108-114 | reverse transliteration picks some key whose value is the character; when no key has that value, it falls back to the forward lookup |
| FuzzySearch.SharedValues | FinanceTamer/FinanceTamer/Utilities/FuzzySearch.swift:88-103 | values several keys share are reversed to one of those keys, which one depending on dictionary order |
| FuzzySearch.ReverseFallsBack | FinanceTamer/FinanceTamer/Utilities/FuzzySearch.swift:113 | a Latin letter that is no key's value, such as `x`, reverses through the forward table, to "кс" |
| FuzzySearch.Words | FinanceTamer/FinanceTamer/Utilities/FuzzySearch.swift:39 | splitting at whitespace and newlines gives at least one word |
| FuzzySearch.Window | FinanceTamer/FinanceTamer/Utilities/FuzzySearch.swift:42-44 | a window has exactly the asked length |
| FuzzySearch.ContainsWithTypos | FinanceTamer/FinanceTamer/Utilities/FuzzySearch.swift:35-53 | the nested loops answer true iff some word has a window of the substring's length within edit distance 1 of it; a substring shorter than 3 never matches |
| FuzzySearch.RelevanceScore | FinanceTamer/FinanceTamer/Utilities/FuzzySearch.swift:55-85 | the score is between 0 and 200, and at least 100 exactly for an exact match of the lower-cased name with the query or its reverse transliteration |
| FuzzySearch.ExactMatchScoresMost | FinanceTamer/FinanceTamer/Utilities/FuzzySearch.swift:63-82 | a name equal to the query, ignoring case, scores the maximum 200 |
| FuzzySearch.Search | FinanceTamer/FinanceTamer/Utilities/FuzzySearch.swift:4-33 | an empty query returns the categories unchanged, and a result is never longer than the input |
| FuzzySearch.SearchResult | FinanceTamer/FinanceTamer/Utilities/FuzzySearch.swift:4-33 | for a non-empty query the result holds each matching category as often as the input does, and no other; a category matches by substring or by one typo against the query or either transliteration; the result is ordered by non-increasing relevance when every score is taken in the same dictionary order |
| FuzzySearch.TransliteratedAgrees | FinanceTamer/FinanceTamer/Utilities/FuzzySearch.swift:87-120 | a text none of whose characters is a value several keys share reverse-transliterates the same way in every dictionary order |
| FuzzySearch.ScoreAgrees | FinanceTamer/FinanceTamer/Utilities/FuzzySearch.swift:55-85 | for such a query, `relevanceScore` gives the same score in every dictionary order |
| FuzzySearch.SearchOrderedInEveryOrder | FinanceTamer/FinanceTamer/Utilities/FuzzySearch.swift:4-33 | for such a query, the result is ordered by non-increasing relevance whichever dictionary order each `relevanceScore` call sees |
| TransactionListing.SortTypeIdsDistinct | FinanceTamer/FinanceTamer/Views/Features/Transactions/History/MyHistoryViewModel.swift:3-9 | the four sort types have distinct raw values, so `id` identifies the case |
| TransactionListing.DateKey | FinanceTamer/FinanceTamer/Views/Features/Transactions/List/TransactionsViewModel.swift:129-130 | a transaction sorts by its parsed date, or by `Date.distantPast` when the text does not parse |
| TransactionListing.SortedFor | FinanceTamer/FinanceTamer/Views/Features/Transactions/List/TransactionsViewModel.swift:124-144 | sorting for a sort type is a permutation that is ordered by date or amount, ascending or descending as the type says |
| TransactionListing.LookupCategory | FinanceTamer/FinanceTamer/Views/Features/Transactions/List/TransactionsViewModel.swift:81-83 | `category(for:)` is the first loaded category with the transaction's category id, and is nil iff no loaded category has that id |
| TransactionListing.ByDirectionMember | FinanceTamer/FinanceTamer/Views/Features/Transactions/List/TransactionsViewModel.swift:146-150 | a transaction is displayed iff it is loaded, its category is known and has the selected direction |
| TransactionListing.ByDirectionSplits | FinanceTamer/FinanceTamer/Views/Features/Transactions/List/TransactionsViewModel.swift:146-150 | a loaded transaction is in the income list or the expense list iff its category is known, and never in both |
| TransactionListing.SortedKeepsTotal | FinanceTamer/FinanceTamer/Views/Features/Transactions/List/TransactionsViewModel.swift:20-22 | sorting does not change the total |
| TransactionListing.TotalAppend | FinanceTamer/FinanceTamer/Views/Features/Transactions/List/TransactionsViewModel.swift:20-22 | the total adds each amount, and an amount that does not parse adds nothing |
| TransactionsViewModel.RollbackKeeps | FinanceTamer/FinanceTamer/Views/Features/Transactions/List/TransactionsViewModel.swift:108-122 | a failed delete's rollback never invents an entry |
| TransactionsViewModel.RollbackRestores | FinanceTamer/FinanceTamer/Views/Features/Transactions/List/TransactionsViewModel.swift:108-122 | when at most one entry has the id, the rollback restores the list as a multiset |
| TransactionsViewModel.RollbackDropsDuplicates | FinanceTamer/FinanceTamer/Views/Features/Transactions/List/TransactionsViewModel.swift:109-117 | with two entries of the same id, the rollback keeps only one |
| TransactionsViewModel.TransactionsViewModel.constructor | FinanceTamer/FinanceTamer/Views/Features/Transactions/List/TransactionsViewModel.swift:44-52 | the lists start empty, the sort is date descending, and the direction is stored |
| TransactionsViewModel.TransactionsViewModel.TotalIsDirectionTotal | FinanceTamer/FinanceTamer/Views/Features/Transactions/List/TransactionsViewModel.swift:20-22 | `totalAmount` is the total of the selected direction's loaded transactions |
| TransactionsViewModel.TransactionsViewModel.SortTransactions | FinanceTamer/FinanceTamer/Views/Features/Transactions/List/TransactionsViewModel.swift:124-144 | the displayed list is permuted into the sort type's order, and nothing else changes |
| TransactionsViewModel.TransactionsViewModel.FilterTransactions | FinanceTamer/FinanceTamer/Views/Features/Transactions/List/TransactionsViewModel.swift:146-152 | the displayed list becomes the selected direction's transactions in sort order, and nothing else changes |
| TransactionsViewModel.TransactionsViewModel.SetSortType | FinanceTamer/FinanceTamer/Views/Features/Transactions/List/TransactionsViewModel.swift:14-18 | setting the sort type re-sorts the displayed list in place |
| TransactionsViewModel.TransactionsViewModel.SetSelectedDirection | FinanceTamer/FinanceTamer/Views/Features/Transactions/List/TransactionsViewModel.swift:24-28 | setting the direction re-filters the displayed list |
| TransactionsViewModel.TransactionsViewModel.LoadTransactions | FinanceTamer/FinanceTamer/Views/Features/Transactions/List/TransactionsViewModel.swift:54-79 | a load while loading does nothing; otherwise a success replaces transactions and categories and re-filters, a failure records the error, and loading ends either way |
| TransactionsViewModel.TransactionsViewModel.SwitchDirection | FinanceTamer/FinanceTamer/Views/Features/Transactions/List/TransactionsViewModel.swift:173-178 | the direction is set and the list reloaded: ignored while a load runs, otherwise the fetched transactions and categories replace the loaded ones or the error is recorded; the sort order and `saveSuccess` stay |
| TransactionsViewModel.TransactionsViewModel.CreateTransaction | FinanceTamer/FinanceTamer/Views/Features/Transactions/List/TransactionsViewModel.swift:85-106 | a failed create records the error and leaves the lists; a successful one reloads the transactions and categories; the sort order, the direction and `saveSuccess` stay |
| TransactionsViewModel.TransactionsViewModel.UpdateTransaction | FinanceTamer/FinanceTamer/Views/Features/Transactions/List/TransactionsViewModel.swift:154-171 | a successful update toggles `saveSuccess`; either way the list reloads, and a failure records the error; the sort order and the direction stay |
| TransactionsViewModel.TransactionsViewModel.DeleteTransaction | FinanceTamer/FinanceTamer/Views/Features/Transactions/List/TransactionsViewModel.swift:108-122 | entries with the id are removed at once; a failed delete appends the first of them back and records the error; a successful one reloads; the sort order, the direction and `saveSuccess` stay |
| MyHistoryViewModel.MyHistoryViewModel.constructor | FinanceTamer/FinanceTamer/Views/Features/Transactions/History/MyHistoryViewModel.swift:55-59 | the lists start empty, the total at 0, the sort is date ascending, and the direction is stored without re-filtering |
| MyHistoryViewModel.MyHistoryViewModel.SortedTransactions | FinanceTamer/FinanceTamer/Views/Features/Transactions/History/MyHistoryViewModel.swift:33-53 | `sortedTransactions` is a permutation of the displayed list, in the sort type's order |
| MyHistoryViewModel.MyHistoryViewModel.FilterTransactions | FinanceTamer/FinanceTamer/Views/Features/Transactions/History/MyHistoryViewModel.swift:91-96 | the displayed list becomes the selected direction's transactions in load order, and nothing else changes |
| MyHistoryViewModel.MyHistoryViewModel.SetSelectedDirection | FinanceTamer/FinanceTamer/Views/Features/Transactions/History/MyHistoryViewModel.swift:17-21 | setting the direction re-filters the list; the total keeps its old value |
| MyHistoryViewModel.MyHistoryViewModel.SortedTotal | FinanceTamer/FinanceTamer/Views/Features/Transactions/History/MyHistoryViewModel.swift:87-89 | the total of the sorted list is `calculateTotalAmount()` |
| MyHistoryViewModel.MyHistoryViewModel.LoadData | FinanceTamer/FinanceTamer/Views/Features/Transactions/History/MyHistoryViewModel.swift:61-81 | a success stores transactions and categories, filters by direction and sets the total to the filtered total; a failure records the error and keeps the rest; loading ends either way |
| MyHistoryView.MyHistoryView.constructor | FinanceTamer/FinanceTamer/Views/Features/Management/MyHistoryView.swift:12-28 | the period starts at midnight a month ago, or today when the calendar gives no date, and ends at 23:59 today; the sort is date ascending |
| MyHistoryView.MyHistoryView.ChangeDate | FinanceTamer/FinanceTamer/Views/Features/Management/MyHistoryView.swift:216-255 | a new start is moved to midnight and a new end to 23:59:59; when they cross, the other bound is moved to the same day; afterwards the start is never after the end |
| MyHistoryView.MyHistoryView.FilteredTransactions | FinanceTamer/FinanceTamer/Views/Features/Management/MyHistoryView.swift:30-40 | a transaction is shown iff it is loaded, its category is known and has the selected direction, and its date parses and lies in `start...max(start, end)` |
| MyHistoryView.MyHistoryView.SortedTransactions | FinanceTamer/FinanceTamer/Views/Features/Management/MyHistoryView.swift:42-62 | the shown transactions are permuted into the sort type's order |
| MyHistoryView.MyHistoryView.TotalAmount | FinanceTamer/FinanceTamer/Views/Features/Management/MyHistoryView.swift:64-66 | summing the sorted list gives the total of the filtered list |
| AnalysisStats.CategoryById | FinanceTamer/FinanceTamer/Views/Features/Analysis/AnalysisViewController.swift:216 | the lookup finds a loaded category with the id, and is nil iff there is none |
| AnalysisStats.FilteredForPeriodMember | FinanceTamer/FinanceTamer/Views/Features/Analysis/AnalysisViewController.swift:186-197 | a transaction is analysed iff it is loaded, its category is known and has the selected direction, and it is dated within the period |
| AnalysisStats.IdsAreKeys | FinanceTamer/FinanceTamer/Views/Features/Analysis/AnalysisViewController.swift:203-213 | the dictionary's keys are exactly the category ids of the transactions, each listed once |
| AnalysisStats.AggregateAmount | FinanceTamer/FinanceTamer/Views/Features/Analysis/AnalysisViewController.swift:206-213 | a category's entry is the sum of the absolute amounts of its transactions; a category with no transaction has no entry |
| AnalysisStats.AggregateLatest | FinanceTamer/FinanceTamer/Views/Features/Analysis/AnalysisViewController.swift:208 | a category's latest date is the date of one of its transactions and is not before any of them |
| AnalysisStats.AggregateTotal | FinanceTamer/FinanceTamer/Views/Features/Analysis/AnalysisViewController.swift:204-213 | the entries add up to the absolute total |
| AnalysisStats.AbsoluteTotalNonNegative | FinanceTamer/FinanceTamer/Views/Features/Analysis/AnalysisViewController.swift:204 | the absolute total is never negative |
| AnalysisStats.StatFor | FinanceTamer/FinanceTamer/Views/Features/Analysis/AnalysisViewController.swift:215-222 | a row exists iff the id has an entry, the total is positive and the category is loaded; it carries that category and the entry's amount and latest date |
| AnalysisStats.StatsDistinct | FinanceTamer/FinanceTamer/Views/Features/Analysis/AnalysisViewController.swift:215-222 | no two rows name the same category |
| AnalysisStats.StatsShape | FinanceTamer/FinanceTamer/Views/Features/Analysis/AnalysisViewController.swift:215-222 | a total that is not positive gives no rows, and the rows name distinct categories |
| AnalysisStats.StatRow | FinanceTamer/FinanceTamer/Views/Features/Analysis/AnalysisViewController.swift:199-236 | every row's amount is its category's absolute sum, and its date is that category's latest transaction date |
| AnalysisStats.StatsComplete | FinanceTamer/FinanceTamer/Views/Features/Analysis/AnalysisViewController.swift:199-236 | with a positive total, every analysed transaction whose category is loaded has a row |
| AnalysisStats.CategoryTable | FinanceTamer/FinanceTamer/Views/Features/Analysis/AnalysisViewController.swift:223-235 | the rows are permuted into amount or latest-date order, ascending or descending by the sort type |
| AnalysisStats.TransactionTable | FinanceTamer/FinanceTamer/Views/Features/Analysis/AnalysisViewController.swift:238-264 | with a positive total, the transactions are permuted into absolute-amount or date order; otherwise there are none |
| AnalysisStats.TotalRowIsSigned | FinanceTamer/FinanceTamer/Views/Features/Analysis/AnalysisViewController.swift:348-349 | the total row sums signed amounts: it never exceeds the absolute total, equals it for non-negative amounts and is its negation for non-positive ones |
| AnalysisViewController.AggregateByCategory | FinanceTamer/FinanceTamer/Views/Features/Analysis/AnalysisViewController.swift:203-213 | the loop builds the dictionary, and the keys in first-appearance order |
| AnalysisViewController.AggregateStep | FinanceTamer/FinanceTamer/Views/Features/Analysis/AnalysisViewController.swift:206-212 | one more transaction merges into its category's entry, or opens a new one |
| AnalysisViewController.AnalysisViewController.constructor | FinanceTamer/FinanceTamer/Views/Features/Analysis/AnalysisViewController.swift:7-28 | the period starts at midnight a month ago and ends at 23:59 today; the caches start empty |
| AnalysisViewController.AnalysisViewController.ChangeDate | FinanceTamer/FinanceTamer/Views/Features/Analysis/AnalysisViewController.swift:119-141 | a new start is moved to midnight and a new end to 23:59; when they cross, the other bound is moved to the same day; afterwards the start is never after the end |
| AnalysisViewController.AnalysisViewController.GetFilteredTransactions | FinanceTamer/FinanceTamer/Views/Features/Analysis/AnalysisViewController.swift:186-197 | without a transactions view model nothing is analysed; otherwise the transactions of the direction and period |
| AnalysisViewController.AnalysisViewController.GetCategoryStats | FinanceTamer/FinanceTamer/Views/Features/Analysis/AnalysisViewController.swift:199-236 | the category table of the filtered transactions, or none without a transactions view model |
| AnalysisViewController.AnalysisViewController.GetTransactionStats | FinanceTamer/FinanceTamer/Views/Features/Analysis/AnalysisViewController.swift:238-264 | the transaction table of the filtered transactions, or none without a transactions view model |
| AnalysisViewController.AnalysisViewController.UpdateCache | FinanceTamer/FinanceTamer/Views/Features/Analysis/AnalysisViewController.swift:109-113 | both caches are recomputed for the current period and sort |
| TransactionEditViewModel.TransactionDirection | FinanceTamer/FinanceTamer/Views/Features/Transactions/Creation/TransactionEditViewModel.swift:63-71 | an edited transaction is income exactly when its amount is positive; a new one has the mode's direction |
| TransactionEditViewModel.NavigationTitle | FinanceTamer/FinanceTamer/Views/Features/Transactions/Creation/TransactionEditViewModel.swift:27-32 | the title is "Мои доходы" exactly for income |
| TransactionEditViewModel.ValidationFailure | FinanceTamer/FinanceTamer/Views/Features/Transactions/Creation/TransactionEditViewModel.swift:170-190 | the checks run in order: no category gives the choose-category message, then empty text gives the enter-amount message, then text that does not parse gives the invalid-amount message; with all three passed there is no message |
| TransactionEditViewModel.FormValidIffValidates | FinanceTamer/FinanceTamer/Views/Features/Transactions/Creation/TransactionEditViewModel.swift:59-61 | `isFormValid` holds exactly when `validateFields` finds no failure |
| TransactionEditViewModel.CentsOf | FinanceTamer/FinanceTamer/Views/Features/Transactions/Creation/TransactionEditViewModel.swift:236-242 | the whole number of cents within half a cent of the amount, with the amount's sign |
| TransactionEditViewModel.RoundedToCents | FinanceTamer/FinanceTamer/Views/Features/Transactions/Creation/TransactionEditViewModel.swift:236-242 | `rounded(2)` is a whole number of cents, within half a cent of the amount, and keeps its sign |
| TransactionEditViewModel.RoundedIsSymmetric | FinanceTamer/FinanceTamer/Views/Features/Transactions/Creation/TransactionEditViewModel.swift:236-242 | rounding commutes with negation |
| TransactionEditViewModel.RoundedKeepsCents | FinanceTamer/FinanceTamer/Views/Features/Transactions/Creation/TransactionEditViewModel.swift:236-242 | an amount already in whole cents is kept |
| TransactionEditViewModel.RoundedTwice | FinanceTamer/FinanceTamer/Views/Features/Transactions/Creation/TransactionEditViewModel.swift:236-242 | rounding twice is rounding once |
| TransactionEditViewModel.SignedAmount | FinanceTamer/FinanceTamer/Views/Features/Transactions/Creation/TransactionEditViewModel.swift:117-120 | the saved amount keeps its magnitude, and a positive amount comes out positive for an income category and negative for an expense category |
| TransactionEditViewModel.ReopensInCategoryDirection | FinanceTamer/FinanceTamer/Views/Features/Transactions/Creation/TransactionEditViewModel.swift:63-71 | a saved amount that rounds to a positive value reopens in the category's direction; one that rounds to zero reopens as an expense |
| TransactionEditViewModel.CombinedDate | FinanceTamer/FinanceTamer/Views/Features/Transactions/Creation/TransactionEditViewModel.swift:122-131 | the saved date lies on the picked day, at the picked time with its seconds dropped |
| TransactionEditViewModel.CombinedDateFacts | FinanceTamer/FinanceTamer/Views/Features/Transactions/Creation/TransactionEditViewModel.swift:122-131 | the saved date keeps the picked day and the picked minute, and falls on a whole minute |
| TransactionEditViewModel.MaxAllowedTime | FinanceTamer/FinanceTamer/Views/Features/Transactions/Creation/TransactionEditViewModel.swift:226-233 | on today the limit is now; on another day it is the last second of that day, so every time of the day is allowed |
| TransactionEditViewModel.DeleteCalls | FinanceTamer/FinanceTamer/Views/Features/Transactions/Creation/TransactionEditViewModel.swift:192-224 | a new transaction deletes nothing; an edited one leaves the list and is deleted on the server, then the list reloads on success or the transaction is created again with its fields on failure |
| TransactionEditViewModel.TransactionEditViewModel.constructor | FinanceTamer/FinanceTamer/Views/Features/Transactions/Creation/TransactionEditViewModel.swift:75-94 | an edit starts at the transaction's date, time and comment; a creation starts at now with an empty comment; nothing is selected yet |
| TransactionEditViewModel.TransactionEditViewModel.LoadData | FinanceTamer/FinanceTamer/Views/Features/Transactions/Creation/TransactionEditViewModel.swift:96-113 | on success the categories are stored; an edit selects its category and shows the amount's magnitude; a failure changes nothing |
| TransactionEditViewModel.TransactionEditViewModel.ValidateFields | FinanceTamer/FinanceTamer/Views/Features/Transactions/Creation/TransactionEditViewModel.swift:170-190 | the answer is whether the form is valid; on failure the alert is raised with the first failing check's message |
| TransactionEditViewModel.TransactionEditViewModel.Save | FinanceTamer/FinanceTamer/Views/Features/Transactions/Creation/TransactionEditViewModel.swift:115-168 | an invalid form calls nothing and shows the first failing check's message; a valid one leaves the alert and the message; otherwise a creation adds the rounded, signed amount at the combined date to the primary account when there is one, an edit updates on the server and then in the list on success, and `saveSuccess` toggles |
| TransactionEditViewModel.TransactionEditViewModel.Delete | FinanceTamer/FinanceTamer/Views/Features/Transactions/Creation/TransactionEditViewModel.swift:192-224 | the calls made are those of `DeleteCalls`, and the form is untouched |
| TransactionEditView.Prefix | FinanceTamer/FinanceTamer/Views/Features/Transactions/Creation/TransactionEditView.swift:290 | `prefix(n)` is the prefix of `s` of length `n`, or the whole string when it is shorter |
| TransactionEditView.Sanitized | FinanceTamer/FinanceTamer/Views/Features/Transactions/Creation/TransactionEditView.swift:283-286 | the filtered text holds only digits and the separator |
| TransactionEditView.FormatAmountInput | FinanceTamer/FinanceTamer/Views/Features/Transactions/Creation/TransactionEditView.swift:282-295 | the output holds only digits and the locale's decimal separator |
| TransactionEditView.WithoutSeparator | FinanceTamer/FinanceTamer/Views/Features/Transactions/Creation/TransactionEditView.swift:285-288 | without a separator, the output is the input's digits in their order |
| TransactionEditView.KeepsIntegerPart | FinanceTamer/FinanceTamer/Views/Features/Transactions/Creation/TransactionEditView.swift:288-292 | the text before the first separator is kept, the separator follows, and at most two characters after it, taken from what followed |
| TransactionEditView.SanitizedKeepsAllowed | FinanceTamer/FinanceTamer/Views/Features/Transactions/Creation/TransactionEditView.swift:283-286 | filtering keeps text that holds only allowed characters |
| TransactionEditView.FormatIsIdempotent | FinanceTamer/FinanceTamer/Views/Features/Transactions/Creation/TransactionEditView.swift:163-165 | formatting formatted text changes nothing, so the change observer settles after one pass |
| TransactionEditView.SecondSeparatorSurvives | FinanceTamer/FinanceTamer/Views/Features/Transactions/Creation/TransactionEditView.swift:288-292 | a second separator right after the first is kept as one of the two fraction characters: "1..55" becomes "1..5" |
| TransactionEditView.PickDate | FinanceTamer/FinanceTamer/Views/Features/Transactions/Creation/TransactionEditView.swift:229-236 | the date is set, and on today a time later than now is clamped to now |
| TransactionEditView.DateChanged | FinanceTamer/FinanceTamer/Views/Features/Transactions/Creation/TransactionEditView.swift:275-279 | the date observer clamps a time later than now on today, and changes nothing else |
| TransactionEditView.PickTime | FinanceTamer/FinanceTamer/Views/Features/Transactions/Creation/TransactionEditView.swift:252-263 | a picked time later than now on today is clamped to now; afterwards the time is never past the limit |
| TransactionEditView.ChangeAmountText | FinanceTamer/FinanceTamer/Views/Features/Transactions/Creation/TransactionEditView.swift:163-165 | the amount field holds the formatted text, with the locale's separator or "." when it has none |
| ScoreViewModel.CurrencySymbol | FinanceTamer/FinanceTamer/Views/Features/Management/ScoreViewModel.swift:19-25 | the symbol is one character: "₽" exactly for roubles, "$" exactly for dollars, "€" exactly for euros |
| ScoreViewModel.CurrencySymbolsDistinct | FinanceTamer/FinanceTamer/Views/Features/Management/ScoreViewModel.swift:19-25 | different currencies have different symbols |
| ScoreViewModel.CommasToDots | FinanceTamer/FinanceTamer/Views/Features/Management/ScoreViewModel.swift:58 | replacing "," with "." keeps the length and changes exactly the commas |
| ScoreViewModel.CommasToDotsFacts | FinanceTamer/FinanceTamer/Views/Features/Management/ScoreViewModel.swift:58 | the cleaned text holds no comma, and text without a comma is unchanged |
| ScoreViewModel.LoadedBalance | FinanceTamer/FinanceTamer/Views/Features/Management/ScoreViewModel.swift:33-39 | the loaded balance is the account's balance text read as a decimal, or 0 when it does not parse |
| ScoreViewModel.ScoreViewModel.constructor | FinanceTamer/FinanceTamer/Views/Features/Management/ScoreViewModel.swift:4-17 | balances start at 0 with an empty string, the first load is pending, there is no error, and the currency is the currency service's |
| ScoreViewModel.ScoreViewModel.LoadAccount | FinanceTamer/FinanceTamer/Views/Features/Management/ScoreViewModel.swift:27-55 | a failure sets the error message and keeps the rest; no account changes nothing; otherwise both balances take the first account's balance and the string is reformatted, while the account's currency is adopted only on the first load, when it is known |
| ScoreViewModel.ScoreViewModel.SaveChanges | FinanceTamer/FinanceTamer/Views/Features/Management/ScoreViewModel.swift:57-81 | text that does not parse after comma cleaning, or equals the original balance, changes nothing; otherwise the balance is set at once, and the original balance and string follow only once the first account is found and updated |
| CategoriesViewModel.IsCancelledError | FinanceTamer/FinanceTamer/Views/Features/Management/CategoriesViewModel.swift:10-23 | an error counts as a cancellation iff unwrapping the network errors it wraps ends at the URL error `.cancelled` |
| CategoriesViewModel.Innermost | FinanceTamer/FinanceTamer/Views/Features/Management/CategoriesViewModel.swift:14-17 | unwrapping network errors ends at an error that wraps nothing |
| CategoriesViewModel.QueryFor | FinanceTamer/FinanceTamer/Views/Features/Management/CategoriesViewModel.swift:30-35 | no direction asks for all categories; a direction asks by `isIncome == (direction == .income)` |
| CategoriesViewModel.CategoriesViewModel.constructor | FinanceTamer/FinanceTamer/Views/Features/Management/CategoriesViewModel.swift:5-8 | no categories, not loading, no error |
| CategoriesViewModel.CategoriesViewModel.LoadCategories | FinanceTamer/FinanceTamer/Views/Features/Management/CategoriesViewModel.swift:25-44 | the error is cleared first and loading ends; success stores the categories; failure keeps them and records the error unless it is a cancellation or `Task.isCancelled` holds |
| BalanceChartView.TruncatedRemainder | FinanceTamer/FinanceTamer/Views/Features/Management/BalanceChartView.swift:28 | Swift's `%` differs from the dividend by a multiple of the divisor, takes the sign of the dividend and stays below the divisor in size |
| BalanceChartView.TruncatedRemainderZero | FinanceTamer/FinanceTamer/Views/Features/Management/BalanceChartView.swift:28 | a day count is 0 modulo 5 in Swift's sense iff it is in Dafny's |
| BalanceChartView.ShouldShowDateLabel | FinanceTamer/FinanceTamer/Views/Features/Management/BalanceChartView.swift:16-29 | no data shows no label; the first and last day always show one; any other day shows one iff its whole-day distance from the first is a multiple of 5 |
| BalanceChartView.FirstAndLastArePositions | FinanceTamer/FinanceTamer/Views/Features/Management/BalanceChartView.swift:19-23 | "first" and "last" are list positions, not dates: in unsorted data the latest day need not be labelled |
| BalanceChartView.EveryFifthDay | FinanceTamer/FinanceTamer/Views/Features/Management/BalanceChartView.swift:27-28 | every fifth day from the first entry is labelled |
| PieChartView.TrimmedIsStretch | FinanceTamer/FinanceTamer/LocalSPM/Utilities/Sources/PieChart/PieChartView.swift:124 | trimming keeps the stretch of the input that follows its leading non-alphanumerics, cuts only non-alphanumerics before and after it, and leaves text that starts and ends with an alphanumeric character |
| PieChartView.TrimKeepsAlphanumeric | FinanceTamer/FinanceTamer/LocalSPM/Utilities/Sources/PieChart/PieChartView.swift:124 | trimming keeps alphanumeric text as it is |
| PieChartView.TrimsHash | FinanceTamer/FinanceTamer/LocalSPM/Utilities/Sources/PieChart/PieChartView.swift:124 | trimming "#" followed by alphanumerics leaves the alphanumerics |
| PieChartView.ScanHex | FinanceTamer/FinanceTamer/LocalSPM/Utilities/Sources/PieChart/PieChartView.swift:125-126 | the scanned value is below `16^n` for text of length `n` |
| PieChartView.ScansAllDigits | FinanceTamer/FinanceTamer/LocalSPM/Utilities/Sources/PieChart/PieChartView.swift:125-126 | text of hex digits alone scans to its hexadecimal value |
| PieChartView.HexColor | FinanceTamer/FinanceTamer/LocalSPM/Utilities/Sources/PieChart/PieChartView.swift:123-135 | every channel is in 0..255; a trimmed length other than 3, 6 or 8 gives opaque black; 3 and 6 digits are opaque |
| PieChartView.ThreeDigits | FinanceTamer/FinanceTamer/LocalSPM/Utilities/Sources/PieChart/PieChartView.swift:129 | three hex digits give each channel the digit times 17, opaque |
| PieChartView.SixDigits | FinanceTamer/FinanceTamer/LocalSPM/Utilities/Sources/PieChart/PieChartView.swift:130 | six hex digits give the three byte pairs as red, green and blue, opaque |
| PieChartView.EightDigits | FinanceTamer/FinanceTamer/LocalSPM/Utilities/Sources/PieChart/PieChartView.swift:131 | eight hex digits give the four byte pairs as alpha, red, green and blue |
| PieChartView.HashAndSixDigits | FinanceTamer/FinanceTamer/LocalSPM/Utilities/Sources/PieChart/PieChartView.swift:123-135 | "#" and six hex digits give the byte pairs as an opaque colour |
| PieChartView.SegmentColor | FinanceTamer/FinanceTamer/LocalSPM/Utilities/Sources/PieChart/PieChartView.swift:14-18 | each palette colour has its channels in 0..255 |
| PieChartView.FirstSegmentColor | FinanceTamer/FinanceTamer/LocalSPM/Utilities/Sources/PieChart/PieChartView.swift:15 | the first segment colour "#2AE881" is opaque (0x2A, 0xE8, 0x81) |
| PieChartView.PaletteIsOpaque | FinanceTamer/FinanceTamer/LocalSPM/Utilities/Sources/PieChart/PieChartView.swift:14-18 | every palette colour is opaque |
| PieChartView.Drawn | FinanceTamer/FinanceTamer/LocalSPM/Utilities/Sources/PieChart/PieChartView.swift:61 | at most six entities are drawn: all of them, or the first six |
| PieChartView.LegendRows | FinanceTamer/FinanceTamer/LocalSPM/Utilities/Sources/PieChart/PieChartView.swift:80-90 | one legend row per drawn entity, with the segment's colour and the entity's label, so the palette index is always in bounds |
| PieChartView.DrawChart | FinanceTamer/FinanceTamer/LocalSPM/Utilities/Sources/PieChart/PieChartView.swift:53-78 | a total that is not positive draws nothing; otherwise one stroke per drawn entity, in the palette's order |
| PieChartView.Strokes | FinanceTamer/FinanceTamer/LocalSPM/Utilities/Sources/PieChart/PieChartView.swift:61-76 | the drawing loop strokes one path per drawn slice, slice `index` in the colour for `index`, in order |

## Left out

- Concurrency: `async` functions, `Task`, `Task.sleep`, `DispatchQueue` and `@MainActor` are left out. Each operation is one sequential step; a fetched list, a remote `Result`, `Date()` and `Task.isCancelled` are method parameters (`fetched`, `write`, `now`, `taskCancelled`, `updated`).
- Clock: where the source reads `Date()` twice in a row, the model uses one `now` for both, so the two values are equal. This covers `createdAt` and `updatedAt` in `TransactionsService.swift:36-37` and in `BankAccountsService.swift:6`, and `date` and `time` in `TransactionEditViewModel.swift:18-19`; the source may read two instants a moment apart.
- Network: `NetworkClient` and the request and response bodies it sends are not part of this model; their outcomes are parameters.
- Foundation conversions: `Decimal(string:)`, `Decimal.description`, `ISO8601DateFormatter` and `lowercased()` are uninterpreted fields of `Foundation.Formatters`; only the laws in `Foundation.Lawful` are assumed about them, as preconditions of the lemmas that need them. The witnesses in `LawfulFormatters` and `JsonBytes` show that the laws can hold; they do not use Foundation's text formats.
- Decimal rounding: `rounded(2)` (`NSDecimalRound` in `.plain` mode) is modelled concretely as rounding half away from zero to cents, as Foundation documents that mode; the 38-digit mantissa limit of `Decimal` is not modelled.
- NumberFormatter: the amount text of the editor's `loadData` and the balance text of the score screen are produced by a formatter parameter; `localizedDescription` of an error is the `describe` parameter.
- Floating point: the percentages of the analysis table (`AnalysisViewController.swift:219` and `:247`), the pie angles and legend percent strings (`PieChartView.swift:56-118`) and `String(format: "%.2f")` of the score screen are left out; the pie chart's positive-total guard is taken on the `Decimal` sum.
- Calendar: days are fixed 86400-second days in one time zone, with no daylight-saving changes; "one month ago" is a parameter, and a failing `Calendar.date(from:)` (whose fallback is today) does not occur in the model.
- FileCache.TransactionsFileCache.LoadFromFile and FileCache.DecodedSkipsCorrupt: `TransactionsFileCache.swift:58` calls the throwing `Transaction.parse(jsonObject:)` (`Transaction+JSON.swift:8`) without `try`; the model takes the `try?` reading, so an entry that does not parse is skipped rather than ending the load with an error.
- File cache: file bytes, `Data(contentsOf:)` and `JSONSerialization` are left out. The file is an `Option<FileContent>` holding either a JSON document or an unreadable marker. The unreadable marker stands for missing data, malformed JSON, and a lone top-level scalar, which `JSONSerialization` without `.fragmentsAllowed` rejects (`TransactionsFileCache.swift:56`). A `Document` is meant to hold an array or a dictionary; the model does not enforce this, and it loads a `Document` of a scalar as the empty list; a failing write is a parameter.
- JSON numbers: `as? Int` and `decode(Int.self, forKey:)` accept a whole number in the `Int64` range, also when written with a zero fraction such as `5.0` (`Json.AsInt`); a value that is not such a number is a type mismatch, where `JSONDecoder` reports an out-of-range or fractional number as corrupted data; a `Date` is whole seconds, so a fractional number of seconds decodes rounded down; the bridging of JSON booleans through `NSNumber` is not modelled.
- SwiftData: a store is an in-memory sequence of records; `insert` appends, so the upsert that `@Attribute(.unique)` performs on a duplicate id is not modelled; `fetch` returns records in insertion order; a throwing `context.save()` is not modelled.
- Backup payloads: `JSONEncoder`/`JSONDecoder` of a backup payload is a `Codec` parameter with the round-trip law `LawfulCodec`; for accounts, the JSON bytes are a `JsonData` parameter with the law `AccountsBackup.LawfulJsonData`.
- Decimal round trips: BankAccountModel.DecodeEncode, TransactionCsv.FixedFieldsParseBack, TransactionCsv.ParseCsvString, TransactionJson.ParseToJson, FileCache.LoadAfterSave and AccountsBackup.AccountBackupRoundTrip hold only for amounts and balances that are finite decimals; a `real` such as 1/3 is no Swift `Decimal`, and its description need not parse back.
- BackupStorage.SwiftDataBackupStorage.GetAllBackupOperations: its contract states only the length bound; which operations are listed is stated by `BackupStorage.ListingMember` and `BackupStorage.ListingAfterAdd`.
- TransactionsService.TransactionsService.CreateTransaction: requires the next id to be a valid `Int`; the trap Swift raises when the counter is incremented past `Int.max`, and when the constructor's maximum id plus one overflows, is not modelled.
- TransactionsService.TransactionsService.UpdateTransaction: keeps the id invariant only when the updated id is below the next id; an update that inserts a larger id leaves the service in a state where the model no longer admits `CreateTransaction`.
- FuzzySearch.Contains: an empty substring is taken as contained in every string. Foundation's `range(of:)`-based `contains`, which the calls at `FuzzySearch.swift:15-17` and `:73` may resolve to, answers false for it, and that reading is not modelled. A query of only "ъ" or "ь" transliterates to the empty text both ways, so in the model it matches every category by substring and adds 30 to every relevance score.
- Text: a Swift `Character` is one `char`, so grapheme clusters made of several scalars (an emoji with a variation selector) are not modelled; alphanumerics and hex digits are ASCII; `components(separatedBy: .whitespacesAndNewlines)` splits on a listed set of Unicode whitespace code points.
- Dictionary order: the order in which the reverse transliteration table is searched is the `entries` parameter, and the category statistics are gathered in order of first appearance. Every fact is claimed for every order, but in `FuzzySearch.Search` one `entries` order serves every call of a search, while `transliterate` builds a fresh dictionary on each call (`FuzzySearch.swift:88-103`), whose order may differ.
- FuzzySearch.SearchResult: its relevance order assumes that every `relevanceScore` call of a search lists the dictionary in the same order. `FuzzySearch.SearchOrderedInEveryOrder` drops that assumption, but only for queries none of whose characters is a value several keys share. For a query holding "e", "к", "y" or "в", the comparator of the sort at `FuzzySearch.swift:29-32` may disagree with itself between calls, and no order is claimed.
- Sorting: Swift's `sort` is not stable; the model sorts with a stable insertion sort and claims only that the result is ordered and a permutation.
- TransactionEditViewModel: its save and delete call APIs whose signatures differ from the files modelled here, so they are modelled as the sequence of calls they make (`Call`); the weak `transactionsViewModel` reference is assumed alive, `onSave` is the `onSaveCalled` output, and `saveButtonTitle`, `dateString`, `timeString` and the printed errors are left out.
- TransactionEditView: `formatAmountInput` assumes a one-character decimal separator; the date picker's range up to now is a UI limit, not a precondition.
- ScoreViewModel: it is written against a service that returns text balances and an update request type that are not part of this model; accounts are `AccountBrief` values and the update outcome is a parameter; the currency read from the currency service is a field.
- CategoriesViewModel: the `URLError` bridging of a thrown error is not modelled; the service fetch is returned as a query, and its result is a parameter.
- TransactionsViewModel: `totalAmountToday`, `lastUpdateTime` and the lookup of the account id are left out, the last because `getAllAccounts` is not part of this model.
- MyHistoryViewModel: the period and account id passed to the service are ignored, as the service is not part of this model; `SetSelectedDirection` does not recompute the total, as in the source; the initializer does not run `didSet`.
- AnalysisViewController: the screen reads `transactionsVM.allTransactions`, a `[TransactionResponse]` (`TransactionsViewModel.swift:7`), as `[Transaction]` (`AnalysisViewController.swift:186-212`), and passes a `Transaction` to `category(for:)`, which takes a `TransactionResponse` (`TransactionsViewModel.swift:81`); the model gives the screen its own `[Transaction]` list in `Source` and a lookup over it, so the conversion it would need is not modelled. `loadData`'s task, the table reload and the cell configuration are left out; `ChangeDate` does not refresh the caches, which the source does through the asynchronous `loadData`.
- BalanceChartView: the chart drawing is left out; only the bar data and its labels are modelled.
- PieChartView: the `didSet` redraw of `entities` is left out; the saturation of `Scanner` on overflow does not arise, as only hex texts of at most eight digits are scanned.
- The SwiftUI views other than the logic named in the table, and the test helpers `parseCSVString`/`parseCSVFile`, are not part of this model.

## Findings

| source | as written | input that shows it | evidently intended | confidence | as-written member | corrected member |
|---|---|---|---|---|---|---|
| FinanceTamer/FinanceTamer/Extensions/Transaction+CSV.swift:25 | the comment is the eighth comma-separated field only, so a comment containing a comma is cut at its first comma | a transaction whose comment is "Test, comment" prints a CSV line that parses back with comment "Test" | the comment is everything after the seventh comma, so parsing the printed line gives the transaction back | not executed | TransactionCsv.Parse | TransactionCsv.ParseKeepingComment |
