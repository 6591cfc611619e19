# emperjs-react: the deterministic core, modelled in Dafny

The storefront and admin console is mostly rendering and HTTP calls. Underneath sits a small layer of list, string and permission logic. This project models that layer and proves what it promises:

- **Selection normalisation and URL parameters** (`src/utils/searchParams.ts`, `normalizeCsvValues` in `src/services/usersApi.ts`). This covers trimming, dropping blanks, lowercasing, deduplicating and sorting a multi-value selection, reading CSV and integer query parameters, and building the users query string.
- **Seller-profile client** (`src/services/sellerProfileApi.ts`). This covers the selector query and its "id or slug" rule, the request-list query, and the rule that every selector-addressed call checks its selector before anything is sent.
- **Admin role console** (`src/pages/AdminUsersPage.tsx`). This covers:
  - the grantable roles per actor;
  - API records mapped to rows;
  - the search box;
  - per-user role drafts with toggle, reset and dirty check;
  - row gating;
  - the load and save round trips.
- **Create-product form** (`src/pages/AdminProductsPage.tsx`). This covers `slugify`, `parseTags`, the resolved slug, the ordered validation of `handleSubmit` with the payload it sends, and `resetForm`.
- **Shop catalogue** (`src/products/Shop/Shop.tsx`). This covers the available tags, the four-step filter chain, the comparator sort done in place on an array, tag toggling and clearing the filters.
- **Seller-profile page** (`src/pages/SellerProfilePage.tsx`). This covers:
  - page access;
  - the member role and the `can*` permissions;
  - loading a profile bundle, with its degrade and clear rules;
  - invite prepend and replace;
  - the mail settings form.

The model follows each file's form:

- Pure chains are functions with lemmas.
- State that a page updates in place is a class whose methods state the new state:
  - `AdminUsers.RoleConsole`
  - `AdminProducts.ProductForm`
  - `Shop.CatalogView`
  - `SellerProfilePage.Workspace`
  - `SellerProfileApi.SellerProfileClient`
- Loops are methods with invariants:
  - the draft-seeding `for` loop;
  - the in-place sort;
  - the `params.set` sequences.

Server answers are parameters, given as `Result` values. Thrown errors are `Failure` values. The error a handler catches is `Some(message)` for an `Error` object and `None` for any other thrown value. `Wrappers.ErrorMessage` then picks the page's fallback text, such as `Failed to load users.` or `Product creation failed.`.

Shared modules model the JavaScript built-ins the core relies on:

- `Strings`: `trim`, ASCII `toLowerCase`/`toUpperCase`, `split`, `join`, `includes`.
- `Seqs`: `map`, `filter`, `[...new Set(...)]`.
- `StringOrder`: one total order for `localeCompare` and `.sort()`.
- `Numbers`: `Number(raw)` on decimal integers, `String(n)`, safe integers.
- `UrlParams`: a `URLSearchParams` as an ordered list of name/value pairs.
- `Sessions` and `Wrappers`.

## Model

| member | source | states |
|---|---|---|
| Strings.Trim | src/utils/searchParams.ts:12 | the result is trimmed, is made of characters of the input, is empty exactly when the input is all white space, and is the input itself when that is already trimmed |
| Strings.ToLower | src/utils/searchParams.ts:14 | same length, no upper-case ASCII letter left, every other character unchanged; a lower-case string is its own result and a trimmed string stays trimmed |
| Strings.ToUpper | src/pages/AdminProductsPage.tsx:121 | same length, every character upper-cased, no lower-case ASCII letter left |
| Strings.SplitOn | src/utils/searchParams.ts:23 | at least one piece, and no piece contains the separator |
| Strings.SplitOnJoin | src/utils/searchParams.ts:23 | splitting parts joined by a separator that none of them contains gives the parts back |
| Strings.SplitOnPrefix | src/utils/searchParams.ts:23 | a separator-free prefix is glued onto the first piece of the rest |
| Seqs.Map | src/utils/searchParams.ts:12 | element `i` of the result is `f` applied to element `i` of the input |
| Seqs.Filter | src/utils/searchParams.ts:13 | every kept element satisfies the predicate and comes from the input; every element that satisfies it is kept as often as it occurs in the input |
| Seqs.FilterIsSubseq | src/pages/AdminUsersPage.tsx:235 | a filter keeps elements in their original order (it returns a subsequence of its input) |
| Seqs.FilterFilter | src/products/Shop/Shop.tsx:46-57 | two filters in a row equal one filter by both conditions |
| Seqs.FilterAppend | src/utils/searchParams.ts:13 | filtering distributes over concatenation |
| Seqs.Dedup | src/utils/searchParams.ts:10 | `[...new Set(s)]`: has no duplicates and the same members as `s`, ordered by first occurrence in `s` |
| Seqs.DedupOfDistinct | src/utils/searchParams.ts:10 | a duplicate-free list is its own deduplication |
| Seqs.ReplaceWhere | src/pages/AdminUsersPage.tsx:279 | same length; each matching element is replaced, every other element kept |
| Seqs.ReplaceWhereUnique | src/pages/AdminUsersPage.tsx:279 | with exactly one match, replacing updates that one position only |
| StringOrder.LessTotal | src/utils/searchParams.ts:15 | the string order is total (with irreflexivity, asymmetry and transitivity in `LessIrreflexive`, `LessAsymmetric`, `LessTransitive`) |
| StringOrder.SortStrings | src/utils/searchParams.ts:15 | the result is sorted and a permutation of the input |
| StringOrder.SortDistinct | src/utils/searchParams.ts:10-15 | sorting a duplicate-free list gives a strictly increasing list with the same members |
| StringOrder.StrictlySortedUnique | src/utils/searchParams.ts:10-15 | two strictly increasing lists with the same members are equal |
| StringOrder.SubseqStrictlySorted | src/pages/AdminUsersPage.tsx:111-114 | deleting elements keeps a list strictly sorted |
| Numbers.NatToString | src/services/usersApi.ts:67 | the digits produced denote the number again and carry no leading zero (only `0` itself starts with `0`) |
| Numbers.ParseNumber | src/utils/searchParams.ts:33 | `Number(raw)` on decimal integer text: a blank string is 0; a string of digits (after trimming) is its value; a negative result comes from a leading `-`; any other accepted text is a sign followed by digits |
| Numbers.ParseIntToString | src/utils/searchParams.ts:33 | `Number(String(n)) == n` for every integer |
| UrlParams.Set | src/services/usersApi.ts:45 | `params.set`: the name then reads back as the new value, other names are unchanged, and a new name is appended at the end |
| UrlParams.RemoveKey | src/services/usersApi.ts:45 | no pair with the name is left and every other name reads as before |
| UrlParams.Serialize | src/services/sellerProfileApi.ts:89 | `params.toString()` is empty exactly when there are no pairs |
| UrlParams.QuerySuffix | src/services/usersApi.ts:77-78 | empty exactly when there are no pairs, else starts with `?` |
| UrlParams.PresentOrdered | src/services/usersApi.ts:44-75 | pairs set in rank order by a run of `if (v) params.set(k, v)` come out in rank order |
| UrlParams.LookupPresent | src/services/usersApi.ts:44-75 | reading a name back from such pairs gives the value its statement set, or nothing |
| SearchParams.NormalizeSelection | src/utils/searchParams.ts:5-16 | strictly sorted (so duplicate-free); its members are exactly the trimmed, non-blank (and, when asked, lowercased) inputs; every entry is non-empty, trimmed and, when lowercasing, lower case |
| SearchParams.Cleaned | src/utils/searchParams.ts:11-14 | the trim/filter/lowercase chain keeps exactly the cleaned forms of the non-blank inputs, each non-empty and trimmed |
| SearchParams.NormalizeSelectionFixesNormalized | src/utils/searchParams.ts:10-15 | a list that is already clean and strictly sorted normalises to itself |
| SearchParams.NormalizeSelectionIdempotent | src/utils/searchParams.ts:5-16 | normalising twice is normalising once |
| SearchParams.NormalizeSelectionDependsOnlyOnCleanSet | src/utils/searchParams.ts:10-15 | inputs with the same cleaned members normalise alike, whatever their order, repetition, padding or (when lowercasing) case |
| SearchParams.NormalizeSelectionIgnoresOrder | src/utils/searchParams.ts:10-15 | inputs with the same members normalise alike |
| SearchParams.ParseCsvParam | src/utils/searchParams.ts:18-24 | nothing for a missing or empty parameter; otherwise the normalised comma pieces: strictly sorted, clean and comma-free |
| SearchParams.ParseCsvParamJoin | src/utils/searchParams.ts:22-23 | a clean, strictly sorted, comma-free list joined with commas parses back to itself |
| SearchParams.ParsePositiveIntParam | src/utils/searchParams.ts:26-37 | the fallback for a missing, empty or unparsable parameter, or for a value that is not a safe integer or lies outside `[min, max]`; otherwise the parsed value, which then lies in `[min, max]` |
| SearchParams.ParsePositiveIntParamOfIntToString | src/utils/searchParams.ts:32-36 | `String(n)` reads back as `n` inside the accepted range and as the fallback outside it |
| SearchParams.ParseNullableNonNegativeIntParam | src/utils/searchParams.ts:39-44 | `None` for a missing, blank or unparsable parameter, a negative number or an unsafe integer; any result is between 0 and `MAX_SAFE_INTEGER` |
| SearchParams.ParseNullableNonNegativeIntParamOfIntToString | src/utils/searchParams.ts:40-43 | `String(n)` reads back as `n` exactly when `n` is a non-negative safe integer |
| UsersApi.NormalizeCsvValues | src/services/usersApi.ts:37-38 | strictly sorted, duplicate-free, each entry non-empty, trimmed and lower case, members exactly the cleaned non-blank inputs |
| UsersApi.NormalizeCsvValuesIsNormalizeSelection | src/services/usersApi.ts:37-38 | it equals `normalizeSelection` with lowercasing |
| UsersApi.SetTrimmed | src/services/usersApi.ts:44-51 | one `name`/`email`/`seller_profile` block appends the trimmed value exactly when it is non-blank and adds no other name |
| UsersApi.SetList | src/services/usersApi.ts:53-61 | one list block appends the normalised list joined with `,` exactly when that list is non-empty |
| UsersApi.SetPage | src/services/usersApi.ts:63-75 | a page number that is not a safe integer or is below 1 fails with the block's message; otherwise `String(n)` is appended when a number is given |
| UsersApi.BuildUsersQueryString | src/services/usersApi.ts:40-79 | no query gives `""`; a bad `page` fails first, then a bad `pageSize`, with no string; otherwise the parameters are exactly the present entries in order and the result is their `?`-prefixed serialisation |
| UsersApi.UsersQueryPairsOrdered | src/services/usersApi.ts:44-75 | names come in the order `name`, `email`, `seller_profile`, `email_providers`, `roles`, `page`, `pageSize`, each at most once |
| UsersApi.UsersQueryPairsLookup | src/services/usersApi.ts:44-75 | each name reads back as exactly what its field contributes (trimmed text, normalised joined list, `String(n)`) or is absent |
| UsersApi.UsersQueryPairsEmpty | src/services/usersApi.ts:77-78 | no parameter, and so no `?`, exactly when no field contributes |
| UsersApi.PageTextRoundTrip | src/services/usersApi.ts:63-68 | the `page` value sent reads back through `parsePositiveIntParam` as the page number |
| UsersApi.ListValueRoundTrip | src/services/usersApi.ts:53-56 | the list value sent reads back through `parseCsvParam` as the normalised list, when no input value holds a comma; an empty normalised list sends nothing and reads back as the empty list |
| AdminUsers.NormalizeRoles | src/pages/AdminUsersPage.tsx:48-49 | canonical (strictly sorted, clean, lower case) with members exactly the cleaned non-blank roles |
| AdminUsers.EqualsRoleLists | src/pages/AdminUsersPage.tsx:51-56 | true exactly when the normalised lists are equal, and exactly when the two lists have the same cleaned members |
| AdminUsers.EqualsRoleListsIgnoresOrder | src/pages/AdminUsersPage.tsx:51-56 | lists with the same entries compare equal whatever their order or repetition |
| AdminUsers.AllowedManagedRoles | src/pages/AdminUsersPage.tsx:88-92 | all three roles for an owner; for anyone else never `admin` or `tester`; never `owner`; non-empty exactly for an owner or admin; sorted |
| AdminUsers.MapApiUser | src/pages/AdminUsersPage.tsx:94-100 | id and email copied; name is the untrimmed display name when it is not blank, else the email; roles canonical with exactly the cleaned roles (none when the field is not an array); active exactly when `is_active` is 1 |
| AdminUsers.ManagedRolesFor | src/pages/AdminUsersPage.tsx:111-114 | exactly the user's roles that are grantable, in the user's order, sorted when the roles are |
| AdminUsers.FilteredUsers | src/pages/AdminUsersPage.tsx:229-238 | every user for an empty query; otherwise an in-order subsequence holding every user, and only the users, whose name, email or space-joined roles contain the query, ignoring case |
| AdminUsers.FilteredUsersIgnoresCase | src/pages/AdminUsersPage.tsx:234 | lowercasing the query first changes nothing |
| AdminUsers.RowGating | src/pages/AdminUsersPage.tsx:623-625 | a row is editable exactly when it is not the actor's own, not an owner's, and the actor is an owner or admin |
| AdminUsers.DraftFor | src/pages/AdminUsersPage.tsx:627 | the stored draft, or the user's grantable roles when there is none |
| AdminUsers.ToggledDraft | src/pages/AdminUsersPage.tsx:240-247 | the stored draft is strictly sorted, holds the role exactly when `checked`, and holds every other role exactly when the previous draft did |
| AdminUsers.ToggleUndo | src/pages/AdminUsersPage.tsx:240-247 | ticking then unticking a role restores a sorted draft that lacked it |
| AdminUsers.ToggleNoChange | src/pages/AdminUsersPage.tsx:240-247 | setting a box to the state it shows leaves a sorted draft unchanged |
| AdminUsers.SeedDrafts | src/pages/AdminUsersPage.tsx:142-145 | the seeded record has exactly the loaded users' ids as keys |
| AdminUsers.SeedRoleDrafts | src/pages/AdminUsersPage.tsx:142-146 | the `for` loop builds exactly the seeded record |
| AdminUsers.SeedDraftsSorted | src/pages/AdminUsersPage.tsx:142-146 | seeded drafts are sorted when the users' roles are normalised |
| AdminUsers.SeededRowsClean | src/pages/AdminUsersPage.tsx:626-628 | right after a load with distinct ids, no row is dirty |
| AdminUsers.ReplaceUser | src/pages/AdminUsersPage.tsx:279 | same length; each row with the updated id is the updated user, every other row unchanged |
| AdminUsers.ReplaceUserUnique | src/pages/AdminUsersPage.tsx:279 | with distinct ids, saving replaces exactly one row |
| AdminUsers.SavedRoles | src/pages/AdminUsersPage.tsx:256-290 | on success the row with the returned id is replaced, that user's draft becomes exactly the user's grantable roles (`getManagedRolesForUser(updated)`), so the row is not dirty, other drafts are kept and the error is cleared; a failed request keeps rows and drafts and reports the thrown error's message, or `Failed to update roles.` for a thrown value that is not an `Error`; a payload without a user reports `Invalid API response`; normalised roles and sorted drafts stay so |
| AdminUsers.RoleConsole.LoadUsers | src/pages/AdminUsersPage.tsx:116-155 | without an owner/admin session everything is cleared with no error; a failure clears rows and drafts and sets the error to the thrown error's message, or `Failed to load users.` for a thrown value that is not an `Error`; a success sets the mapped rows and the seeded drafts; the console invariant holds |
| AdminUsers.RoleConsole.ToggleManagedRole | src/pages/AdminUsersPage.tsx:240-247 | only that user's draft changes, to the toggled draft; the invariant holds |
| AdminUsers.RoleConsole.ResetRoles | src/pages/AdminUsersPage.tsx:249-254 | only that user's draft changes, to the grantable roles, and the row is not dirty |
| AdminUsers.RoleConsole.SaveRoles | src/pages/AdminUsersPage.tsx:256-290 | returns the draft it sent, leaves the row not saving, and the rows, drafts and error become those of `SavedRoles` |
| AdminProducts.CollapseRuns | src/pages/AdminProductsPage.tsx:19-20 | no longer than the input; every character is a hyphen or a non-class character of the input; the first character is kept or becomes a hyphen; collapsing hyphen runs leaves no double hyphen |
| AdminProducts.CollapseRunsJoinsSplit | src/pages/AdminProductsPage.tsx:19-20 | `replace(/X+/g, "-")` equals the pieces of `split(/X+/)` joined by `-`: each maximal run becomes exactly one hyphen and nothing else changes |
| AdminProducts.CollapseRunsKeeps | src/pages/AdminProductsPage.tsx:19-20 | a string without runs to collapse is left as it is |
| AdminProducts.StripHyphens | src/pages/AdminProductsPage.tsx:21 | no hyphen at either end of the result |
| AdminProducts.Slugify | src/pages/AdminProductsPage.tsx:14-22 | the result uses only `[a-z0-9-]`, has no `--`, and has no hyphen at either end |
| AdminProducts.SlugifyFixesSlug | src/pages/AdminProductsPage.tsx:14-22 | a slug is its own slug |
| AdminProducts.SlugifyIdempotent | src/pages/AdminProductsPage.tsx:14-22 | `slugify` is idempotent |
| AdminProducts.SlugifyKeepsAlnum | src/pages/AdminProductsPage.tsx:14-22 | the letters and digits of the slug are exactly those of the trimmed, lowercased input, in order |
| AdminProducts.ResolvedSlug | src/pages/AdminProductsPage.tsx:52 | always a slug |
| AdminProducts.ResolvedSlugOfSlug | src/pages/AdminProductsPage.tsx:52 | a slug typed into the field is used as it is; with the field empty, a name that is a slug is used as it is |
| AdminProducts.SplitRuns | src/pages/AdminProductsPage.tsx:27 | at least one piece, none containing a separator (its value is fixed on every input by `SplitRunsSeparated`) |
| AdminProducts.SplitRunsSeparated | src/pages/AdminProductsPage.tsx:27 | separator-free pieces written with any non-empty separator runs between them (such as `"a, b"` or `" a"`) split back into those pieces, with an empty first or last piece for a leading or trailing run |
| AdminProducts.SplitRunsJoin | src/pages/AdminProductsPage.tsx:27 | non-empty separator-free parts joined by one separator split back into the parts |
| AdminProducts.CleanTag | src/pages/AdminProductsPage.tsx:28 | a separator-free piece cleans to nothing or to a tag (non-empty, trimmed, lower case, no leading `#`, no separator) |
| AdminProducts.CleanTagOfTag | src/pages/AdminProductsPage.tsx:28 | a tag is its own cleaned form |
| AdminProducts.ParseTags | src/pages/AdminProductsPage.tsx:24-31 | duplicate-free tags, members exactly the non-blank cleaned pieces, in order of first appearance |
| AdminProducts.ParseTagsOfJoin | src/pages/AdminProductsPage.tsx:24-31 | distinct tags joined by spaces parse back to themselves |
| AdminProducts.ParseTagsEmpty | src/pages/AdminProductsPage.tsx:24-31 | an empty field has no tags |
| AdminProducts.FormError | src/pages/AdminProductsPage.tsx:92-105 | the slug problem exactly when the resolved slug is empty; the name problem exactly when the slug is fine and the name is blank; the price problem exactly when both are fine and the price is null, NaN or negative; no problem means a non-empty slug |
| AdminProducts.FormErrorOrder | src/pages/AdminProductsPage.tsx:92-105 | with neither slug nor name, the slug is reported; a price problem is only reported for a non-blank name |
| AdminProducts.CreateRequest | src/pages/AdminProductsPage.tsx:92-125 | no request exactly when a check fails; otherwise the resolved slug, trimmed name, trimmed description or null, the validated price, upper-cased currency, image, active flag and parsed tags |
| AdminProducts.SubmitStatus | src/pages/AdminProductsPage.tsx:92-107 | an error tone exactly when a check failed, with that check's message |
| AdminProducts.ProductForm.constructor | src/pages/AdminProductsPage.tsx:37-45 | the initial field values, including currency `EUR` and active, with an idle status |
| AdminProducts.ProductForm.ResetForm | src/pages/AdminProductsPage.tsx:78-87 | every field back to its initial value; the status is untouched |
| AdminProducts.ProductForm.Submit | src/pages/AdminProductsPage.tsx:89-107 | only the status changes; a failed check yields no request and the error status, otherwise the create payload and the saving status |
| AdminProducts.ProductForm.FinishSubmit | src/pages/AdminProductsPage.tsx:127-133 | success reports the created name and resets the form; failure reports the thrown error's message, or `Product creation failed.` for a thrown value that is not an `Error`, and keeps every field |
| Shop.AllTags | src/products/Shop/Shop.tsx:39 | exactly the tags of the products |
| Shop.AvailableTags | src/products/Shop/Shop.tsx:38-41 | strictly sorted, members exactly the tags of the products |
| Shop.AvailableTagsIgnoresOrder | src/products/Shop/Shop.tsx:38-41 | the list depends only on which products are loaded |
| Shop.FilterChain | src/products/Shop/Shop.tsx:46-57 | four filters in a row keep, in order, exactly the elements passing all four |
| Shop.Matching | src/products/Shop/Shop.tsx:46-57 | an in-order subsequence of the products holding exactly the products that pass search, tags and both price bounds |
| Shop.MatchingWithoutFilters | src/products/Shop/Shop.tsx:46-57 | with every filter cleared the whole catalogue is kept |
| Shop.MinAboveMaxIsEmpty | src/products/Shop/Shop.tsx:56-57 | a minimum above the maximum leaves nothing |
| Shop.SearchedResultsContainQuery | src/products/Shop/Shop.tsx:44-51 | with a non-blank search, the lowercased text `name + " " + description` of every result contains the trimmed, lowercased query |
| Shop.SortedByMeaning | src/products/Shop/Shop.tsx:59-64 | sorted by `priceAsc` means non-decreasing price, `priceDesc` non-increasing price, `date` newest first, `name` in name order |
| Shop.BeforeTotal | src/products/Shop/Shop.tsx:59-64 | the comparator orders any two products one way or the other |
| Shop.BeforeTransitive | src/products/Shop/Shop.tsx:59-64 | the comparator's order is transitive |
| Shop.SortInPlace | src/products/Shop/Shop.tsx:59-64 | the array ends sorted by the key and is a permutation of what it held |
| Shop.InsertIntoSorted | src/products/Shop/Shop.tsx:59-64 | one insertion step grows the sorted prefix by one element and permutes the array |
| Shop.SwapDown | src/products/Shop/Shop.tsx:59 | exchanges two neighbours and nothing else |
| Shop.FilteredProducts | src/products/Shop/Shop.tsx:43-67 | a permutation of the matching products, sorted by the key |
| Shop.SortedCopy | src/products/Shop/Shop.tsx:59-66 | a sorted permutation of its input |
| Shop.ShownIffMatches | src/products/Shop/Shop.tsx:43-67 | a product is shown exactly when it is in the catalogue and passes every filter |
| Shop.ToggleTag | src/products/Shop/Shop.tsx:69-71 | the tag is selected afterwards exactly when it was not before; every other tag keeps its state |
| Shop.ToggleTagTwice | src/products/Shop/Shop.tsx:69-71 | selecting an unselected tag and clicking it again restores the selection |
| Shop.ToggleTagKeepsDistinct | src/products/Shop/Shop.tsx:69-71 | the selection never lists a tag twice |
| Shop.CatalogView.constructor | src/products/Shop/Shop.tsx:10-18 | no products, no error, filters cleared |
| Shop.CatalogView.Load | src/products/Shop/Shop.tsx:20-36 | success replaces the products and clears the error; failure keeps the products and sets the thrown message or `Failed to load products`; the filters are untouched |
| Shop.CatalogView.ToggleSelectedTag | src/products/Shop/Shop.tsx:69-71 | only the selection changes, by `ToggleTag`, and it stays duplicate-free |
| Shop.CatalogView.ClearFilters | src/products/Shop/Shop.tsx:73-79 | search `""`, no tags, no bounds, sort by `date`; products and error unchanged |
| Shop.CatalogView.Shown | src/products/Shop/Shop.tsx:43-67 | the grid is a permutation of the matching products sorted by the current key |
| SellerProfileApi.SetLowered | src/services/sellerProfileApi.ts:88 | appends the trimmed, lowercased value exactly when it is non-blank |
| SellerProfileApi.SetNumber | src/services/sellerProfileApi.ts:153 | appends `String(n)` exactly when a number is given |
| SellerProfileApi.BuildSelectorQuery | src/services/sellerProfileApi.ts:85-91 | the parameters are `id` then `slug` as present; it fails with `Selector requires id or slug` exactly when there are none, else returns their serialisation |
| SellerProfileApi.SelectorRefusedIffBlank | src/services/sellerProfileApi.ts:87-89 | a selector is refused exactly when both id and slug are absent or blank |
| SellerProfileApi.SelectorPairsLookup | src/services/sellerProfileApi.ts:87-88 | `id` reads back as the trimmed id and `slug` as the trimmed lowercased slug, and `id` precedes `slug` |
| SellerProfileApi.SlugValueCanonical | src/services/sellerProfileApi.ts:88 | a slug sent is non-empty, trimmed and lower case |
| SellerProfileApi.SelectorPairsIdempotent | src/services/sellerProfileApi.ts:87-88 | a selector made of the values sent produces the same query |
| SellerProfileApi.BuildRequestsQuery | src/services/sellerProfileApi.ts:151-156 | the parameters are the present `status`, `page`, `pageSize` entries in that order, and the suffix is empty or `?`-prefixed |
| SellerProfileApi.RequestsPairsLookup | src/services/sellerProfileApi.ts:151-154 | `status` reads back trimmed and lowercased, `page` and `pageSize` as `String(n)`, each absent when not given, in that order |
| SellerProfileApi.RequestsQueryEmpty | src/services/sellerProfileApi.ts:156 | no `?` exactly when the status is absent or blank and no page number is given |
| SellerProfileApi.RequestsPageRoundTrip | src/services/sellerProfileApi.ts:153 | the page sent reads back as the page number |
| SellerProfileApi.SellerProfileClient.CallWithSelector | src/services/sellerProfileApi.ts:93-100 | a refused selector fails with the selector message and sends nothing; otherwise exactly one request goes out, on the call's route, with the selector query |
| SellerProfileApi.SellerProfileClient.FetchRequests | src/services/sellerProfileApi.ts:146-161 | exactly one request to the requests path with the built suffix |
| SellerProfileApi.SentSelectorQueryNamesProfile | src/services/sellerProfileApi.ts:85-91 | every selector query sent names an id or a slug |
| SellerProfilePage.View | src/pages/SellerProfilePage.tsx:277-298 | the workspace exactly when loaded, authenticated and holding a global owner, admin or seller role; the sign-in view exactly when loaded and not authenticated; the loading view exactly while the session loads |
| SellerProfilePage.RoleOf | src/pages/SellerProfilePage.tsx:69 | nothing exactly when no member has the id; otherwise the role of the first member with it |
| SellerProfilePage.MyMemberRole | src/pages/SellerProfilePage.tsx:67-70 | nothing without a non-empty session user id; any role found belongs to a member row with that id |
| SellerProfilePage.PermissionsNest | src/pages/SellerProfilePage.tsx:72-75 | editing identity, configuring mail and transferring ownership are one permission, which implies managing the team; a team admin without the global owner role manages the team and nothing else |
| SellerProfilePage.TeamPermissionNeedsMembership | src/pages/SellerProfilePage.tsx:67-75 | without the global owner role, team management needs a member row of one's own with an owner or admin role |
| SellerProfilePage.BundleSelector | src/pages/SellerProfilePage.tsx:93-95 | both branches address the profile by slug |
| SellerProfilePage.BundleSelectorAccepted | src/pages/SellerProfilePage.tsx:136-140 | a selector that passed the blank check is never refused by the client |
| SellerProfilePage.MailFormOf | src/pages/SellerProfilePage.tsx:77-84 | no connection gives `microsoft`, empty fields and `active`; otherwise the connection's provider and status, and each text field is the connection's value, or `""` where it has none |
| SellerProfilePage.UpsertBody | src/pages/SellerProfilePage.tsx:239-245 | provider and status are sent as they are; each of the three text fields is sent as null exactly when it is empty, and as its text otherwise |
| SellerProfilePage.UpsertBodyOfMailForm | src/pages/SellerProfilePage.tsx:77-84 | a connection with no empty-string field, synced into the form, yields that connection as the body |
| SellerProfilePage.MailFormRoundTrip | src/pages/SellerProfilePage.tsx:239-246 | syncing the form from a server that echoes the body gives the same form back |
| SellerProfilePage.ReplaceInvite | src/pages/SellerProfilePage.tsx:208 | same length; entries with the revoked id are replaced, every other entry kept |
| SellerProfilePage.ReplaceInviteKeepsIds | src/pages/SellerProfilePage.tsx:208 | a revoke keeps the list of ids |
| SellerProfilePage.ReplaceInviteAt | src/pages/SellerProfilePage.tsx:208 | with distinct ids, a revoke changes exactly the matching entry |
| SellerProfilePage.ReplaceInviteAbsent | src/pages/SellerProfilePage.tsx:208 | revoking an id not in the list changes nothing |
| SellerProfilePage.PrependKeepsDistinct | src/pages/SellerProfilePage.tsx:186 | prepending an invite with a fresh id keeps the ids distinct |
| SellerProfilePage.Workspace.constructor | src/pages/SellerProfilePage.tsx:35-63 | the initial state: empty selector, no profile, empty lists, default mail form, idle statuses, empty invite email and the `member` role |
| SellerProfilePage.Workspace.SyncMailForm | src/pages/SellerProfilePage.tsx:77-84 | the connection and the form derived from it; nothing else changes |
| SellerProfilePage.Workspace.LoadProfile | src/pages/SellerProfilePage.tsx:136-140 | a blank selector changes nothing and sends nothing; otherwise the trimmed selector is loaded as `loadProfileBundle` does |
| SellerProfilePage.Workspace.LoadProfileBundle | src/pages/SellerProfilePage.tsx:86-134 | resets the other statuses, fetches the profile by slug, and then either clears everything (profile failure, nothing more fetched) or sets the profile and each sub-result, degrading a failed members, invites or mail fetch to `[]`, `[]` or null |
| SellerProfilePage.Workspace.ClearBundle | src/pages/SellerProfilePage.tsx:124-130 | profile, members, invites and mail cleared and the error status set |
| SellerProfilePage.Workspace.ApplyBundle | src/pages/SellerProfilePage.tsx:119-123 | the loaded values are stored and the mail form synced |
| SellerProfilePage.Workspace.CreateInvite | src/pages/SellerProfilePage.tsx:176-201 | without a profile nothing changes; on success the invite is prepended, the rest of the list is unchanged, and the form resets to `""` and `member`; on failure only the status changes |
| SellerProfilePage.Workspace.RevokeInvite | src/pages/SellerProfilePage.tsx:203-214 | without a profile nothing changes; on success the matching entry is replaced; on failure only the status changes |
| SellerProfilePage.Workspace.SaveMailSettings | src/pages/SellerProfilePage.tsx:233-254 | without a profile nothing is sent; otherwise the form is sent with blanks as null and, on success, the stored connection is synced back |
| SellerProfilePage.Workspace.DeleteMailSettings | src/pages/SellerProfilePage.tsx:256-270 | without a profile nothing changes; on success the connection and form are cleared; on failure only the status changes |

## Left out

- HTTP and I/O are not modelled: `fetch`, cookies, `parseJson` and response decoding. Server answers are parameters. `fetchAdminUsersPage` and the shop API client are not part of this model.
- Percent-encoding by `URLSearchParams` is left out. Parameters are name/value pairs, and `toString` joins them without escaping.
- Unicode is not modelled. Case mapping is ASCII only, and the white-space set is the one JavaScript's `trim` and `\s` use.
- `localeCompare` and the default `.sort()` are one total order on strings, code unit by code unit. Locale collation is not modelled.
- Numbers.ParseNumber: reads only decimal integer text, with an optional sign and surrounding white space, and a blank string as 0. Other texts that JavaScript's `Number` reads as a safe integer are `None` in the model. So `parsePositiveIntParam` gives the fallback and `parseNullableNonNegativeIntParam` gives null for them, where the source returns the number. Such texts include:
  - hexadecimal, binary and octal literals (`0x10` is 16, `0b11` is 3, `0o7` is 7);
  - exponent forms (`1e2` is 100, `5e0` is 5);
  - a trailing point or zero fraction (`1.` is 1, `2.0` is 2).
- Numbers.IntToString: exact below 10^21, where JavaScript switches to exponent notation.
- Floating-point prices are not modelled. The catalogue's price bounds are whole units and prices are integer cents. In the create form, `Math.round(price * 100)` is not modelled: the payload carries the validated number.
- Loading and saving flags (`isLoading…`, `is…Saving`) are left out, apart from `savingByUserId` in the role console.
- Handlers not modelled:
  - `handleRequestCreate`;
  - `handleProfileUpdate`;
  - `handleOwnershipTransfer`;
  - the effect that clears the transfer target when the profile changes (SellerProfilePage.tsx 272-275);
  - the request-list and system-email tabs of the admin page.
- Shop.FilteredProducts: does not state that the sort is stable. It proves sorted and a permutation; products that compare equal may come out in any order.
- Shop.Product: author and image fields are only rendered and are left out.
- SellerProfilePage.Workspace: `sent` records only the requests made by profile loads. The invite and mail handlers check for a loaded profile instead of a selector, and their requests are not recorded.
- SellerProfilePage.BundleSelector: both branches of the conditional at SellerProfilePage.tsx 93-95 build the same selector. The model keeps the condition and proves that the result is always by slug.
- The pages filter live. None of the following exists in these files, so none is modelled:
  - an Apply step between draft and applied filters;
  - stale-request cancellation;
  - page windowing;
  - a min > max price check.
  A minimum above the maximum simply yields no products (`Shop.MinAboveMaxIsEmpty`).
