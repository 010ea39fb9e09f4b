# A verified model of the admin client's data rules

This project is a Dafny model of the rules inside a small React admin client that lists and edits users and roles. It covers:

- **Request layer** (`api_service.dfy`, with `uri.dfy` and `text.dfy`):
  - the interceptor normalises every failed request into an `ApiError`;
  - `retryRequest` retries with a capped exponential backoff;
  - `getUsers`/`getRoles` build list URLs from a page number and a percent-encoded search term.
- **Optimistic mutations** (`role_actions_menu.dfy`, `user_actions_menu.dfy`, `query_cache.dfy`):
  - "Set as default", "Edit role" and "Delete user" patch the cached list page before the server answers;
  - each takes a snapshot first and puts it back when the server refuses;
  - the role menu keeps its dialog, error and pending state while its role is on the page;
  - the user menu lives inside the user's row, so its own optimistic delete unmounts it and its dialog; a refused delete brings the row back with a new menu that shows no error (see "## Findings");
  - the role menu's form follows its `role` prop, so every cache write that replaces the role's row resets the form to it (see "## Findings" for what this does to Retry).
- **Paging and searching** (`pagination.dfy`, `list_tab.dfy`):
  - the `usePagination` hook;
  - the Users and Roles tabs: search reset, Previous/Next guards, the list request and the props handed to the tables.
- **Toasts** (`toast_context.dfy`): the provider's queue of notifications.
- **Tables** (`users_table.dfy`, `roles_table.dfy`, `table_view.dfy`, `table_pagination_row.dfy`):
  - skeleton, empty-message or rows;
  - row contents;
  - the pagination row and its button rules.

The record types (`User`, `Role`, `PagedData`, `PaginationData`) and the JavaScript truthiness tests are in `types.dfy`.

How the code's shapes are modelled:

- **The network is an oracle.** `retryRequest` gets the sequence of outcomes its request function yields. It returns the settlement, the number of calls and the delays it would have slept.
- **Stateful code becomes classes.** Each of these has `modifies` clauses and `old(...)` postconditions:
  - the react-query cache entry of one key (`QueryCache.Cache`);
  - the toast provider;
  - the pagination hook;
  - the two menus;
  - the tabs.
- **Pure derivations become functions.** Each is paired with its partner:
  - an inverse (URL and label parsers, a `decodeURIComponent`);
  - a reference characterisation;
  - or lemmas tying components together. For example, the pagination buttons are enabled exactly when the tab's handlers move the page, and after "Set as default" the table shows exactly one Default badge.
- **Asynchrony becomes a sequence of method calls.** A mutation is split into its `onMutate`, `onSuccess` and `onError` steps, plus one method that runs the whole protocol with the server's answer given.
- **Re-rendering becomes a `Rerender` call after each cache write.** The tables key their rows by id. So a menu is handed its row again, or is unmounted, losing its state, when its row is gone.

Two behaviours of the code are modelled as written:

- **The 4xx short-circuit in `retryRequest` never fires for these services.** It requires `axios.isAxiosError(error)`. The services' requests reject with the interceptor's `ApiError`, which is not an axios error. `ApiService.InterceptedClientErrorsRetried` states the consequence: a request that keeps failing with a 404 is still sent `maxRetries + 1` times.
- **`hideToast` decides `open` from the list as it stood before the removal.** It closes the region when that list held at most one toast, even if the id matched none.

## Model

| member | source | states |
|---|---|---|
| Types.OrElse | client/src/components/Roles/RolesTable.tsx:62 | `s \|\| fallback` on an optional string: the value when present and non-empty, else the fallback |
| Text.IntToDecimal | client/src/api/apiService.ts:94 | `${page}` is a non-empty numeral, digits only apart from a leading '-', starting with a digit exactly when the page is non-negative |
| Text.IntToDecimalRoundTrip | client/src/api/apiService.ts:94 | reading back the rendered page number gives the number |
| Text.NatToDecimalRoundTrip | client/src/api/apiService.ts:94 | the digit string of a natural number has that number as its value |
| Text.IntToDecimalInjective | client/src/api/apiService.ts:94 | different page numbers render differently |
| Text.IndexOf | client/src/api/apiService.ts:94-97 | proof partner of the URL parser, with no counterpart in the source: the first position of a character, or the length when absent |
| Text.IndexOfAppend | client/src/api/apiService.ts:94-97 | proof partner of the URL parser, with no counterpart in the source: the first separator of `a + b` lies in `b` when `a` does not contain it |
| Text.StripPrefix | client/src/api/apiService.ts:94-97 | proof partner of the URL parser, with no counterpart in the source: succeeds exactly when the text starts with the prefix, and the prefix followed by the remainder is the text |
| Text.StripPrefixOf | client/src/api/apiService.ts:94-97 | proof partner of the URL parser, with no counterpart in the source: removing a prefix from text that was built with it gives back the rest |
| Text.SplitAt | client/src/api/apiService.ts:94-97 | proof partner of the URL parser, with no counterpart in the source: the two parts concatenate to the text; the first part has no separator and the second part is empty or starts with one |
| Text.SplitAtOf | client/src/api/apiService.ts:94-97 | proof partner of the URL parser, with no counterpart in the source: text built from a separator-free part and a part that is empty or starts with the separator splits back into those two parts |
| Uri.EncodeURIComponent | client/src/api/apiService.ts:96 | the encoding uses only unescaped characters, '%' and hex digits, and is 1 to 12 times as long as its input |
| Uri.EncodeDecodeRoundTrip | client/src/api/apiService.ts:96 | decoding the encoded search term gives it back: no information is lost |
| Uri.EncodeInjective | client/src/api/apiService.ts:143 | distinct search terms give distinct encodings |
| Uri.EncodedHasNoSeparators | client/src/api/apiService.ts:96 | the encoding contains none of `& = ? # space +`, so it cannot break the query string |
| Uri.PercentBytesShape | client/src/api/apiService.ts:96 | about the encoder's output, for the round-trip proof: a run of `%HH` escapes is three characters per byte, made of '%' and hex digits |
| Uri.PercentBytesAt | client/src/api/apiService.ts:96 | about the encoder's output, for the round-trip proof: escape k sits at positions 3k, 3k+1 and 3k+2 |
| Uri.EscapedByteOf | client/src/api/apiService.ts:96 | proof partner of the encoder (the decoder has no counterpart in the source): one `%HH` escape reads back as its byte |
| Uri.EscapedByteAt | client/src/api/apiService.ts:96 | proof partner of the encoder (the decoder has no counterpart in the source): the k-th escape of a character's encoding reads back as its k-th UTF-8 byte |
| Uri.Utf8Two | client/src/api/apiService.ts:96 | about the encoder's output, for the round-trip proof: for code points 0x80..0x7FF the lead byte announces two bytes, the second byte is a continuation byte, and the two recombine into the code point |
| Uri.Utf8Three | client/src/api/apiService.ts:96 | about the encoder's output, for the round-trip proof: the same for three-byte sequences (0x800..0xFFFF) |
| Uri.Utf8Four | client/src/api/apiService.ts:96 | about the encoder's output, for the round-trip proof: the same for four-byte sequences (0x10000 and above) |
| Uri.DecodeEscapedTwo | client/src/api/apiService.ts:96 | proof partner of the encoder (the decoder has no counterpart in the source): the six escape characters of a two-byte character decode back to that character |
| Uri.DecodeEscapedThree | client/src/api/apiService.ts:96 | proof partner of the encoder (the decoder has no counterpart in the source): the nine escape characters of a three-byte character decode back to that character |
| Uri.DecodeEscapedFour | client/src/api/apiService.ts:96 | proof partner of the encoder (the decoder has no counterpart in the source): the twelve escape characters of a four-byte character decode back to that character |
| Uri.DecodeEscapedChar | client/src/api/apiService.ts:96 | proof partner of the encoder (the decoder has no counterpart in the source): the escapes of an encoded character decode to it, consuming exactly its escapes |
| Uri.DecodeChar | client/src/api/apiService.ts:96 | proof partner of the encoder (the decoder has no counterpart in the source): decoding a character's encoding followed by more text yields the character followed by the rest |
| Uri.HexRoundTrip | client/src/api/apiService.ts:96 | proof partner of the encoder (the decoder has no counterpart in the source): the two hex digits of a byte read back as the byte |
| ApiService.NormaliseError | client/src/api/apiService.ts:36-45 | the `ApiError` message is the response body's message if non-empty, else the transport message if non-empty, else "Unknown error occurred" (never empty); status and body are copied from the response |
| ApiService.FromApiError | client/src/api/apiService.ts:8-18 | an `ApiError` reaching the retry loop is not an axios error and keeps its status and message |
| ApiService.RetryRequest | client/src/api/apiService.ts:54-87 | the loop yields exactly the trace of the retry specification: settlement, number of calls, delays |
| ApiService.RetryShape | client/src/api/apiService.ts:60-83 | from any attempt reached by retrying, the calls so far were retryable failures, the delays are the backoffs, and the run ends on a success, the last attempt or a non-retryable error |
| ApiService.RetryCharacterised | client/src/api/apiService.ts:54-87 | 1 to maxRetries+1 calls; the last call's value is returned or its error thrown (the last allowed attempt or a non-retryable one); every earlier call a retryable failure; one backoff per retried attempt; a negative maxRetries calls nothing and throws `null` |
| ApiService.DefaultRetryCallsAtMostThree | client/src/api/apiService.ts:56-60 | with the default maxRetries of 2 the request function is called at most three times |
| ApiService.FirstSuccessReturned | client/src/api/apiService.ts:61-62 | the first resolved call's value is returned after retryable failures, with no further call |
| ApiService.ClientErrorNotRetried | client/src/api/apiService.ts:72-78 | an axios error with a 4xx status other than 429 ends the loop at once without a wait |
| ApiService.RetryableFailuresExhaust | client/src/api/apiService.ts:66-69 | when every allowed call fails retryably, maxRetries+1 calls are made, the last error is thrown and no wait follows the last attempt |
| ApiService.RetryableStatuses | client/src/api/apiService.ts:72-78 | 429, 5xx, status 0, a missing status and non-axios errors never stop retrying; axios 4xx other than 429 do |
| ApiService.InterceptedClientErrorsRetried | client/src/api/apiService.ts:32-47 | errors normalised by the interceptor are always retried, so a failing 404 request is sent maxRetries+1 times |
| ApiService.BackoffSchedule | client/src/api/apiService.ts:81 | the wait after attempt k is 1000, 2000, 4000 ms, then 5000 ms from k = 3 on; never above 5000 |
| ApiService.Pow2AtLeast8 | client/src/api/apiService.ts:81 | `2 ** k` is at least 8 from k = 3 on, so the cap applies there |
| ApiService.Backoffs | client/src/api/apiService.ts:81 | the delays after attempts 0..n-1 are the backoffs of those attempts, in order |
| ApiService.CollectionPath | client/src/api/apiService.ts:94 | a collection path starts with '/' and contains no '?' |
| ApiService.ListUrlRoundTrip | client/src/api/apiService.ts:92-101 | the list URL reads back as its resource, page and search term; the term is present exactly when it is non-empty |
| ApiService.ListUrlPieces | client/src/api/apiService.ts:94-97 | the pieces of a list URL regroup as path, '?', "page=", numeral and search parameter |
| ApiService.ListUrlShape | client/src/api/apiService.ts:94-97 | a list URL is the collection path, '?', "page=", the page numeral and the search parameter, in that order |
| ApiService.ParseListQueryOf | client/src/api/apiService.ts:94-97 | the query part reads back as the page and the decoded search term |
| ApiService.ParseListUrlSplit | client/src/api/apiService.ts:141-144 | a list URL splits at its '?' into the resource's path and the query |
| ApiService.ListUrlInjective | client/src/api/apiService.ts:139-148 | two list requests with the same URL have the same resource, page and search term |
| ApiService.Route | client/src/api/apiService.ts:104-180 | GET exactly for list and get, POST exactly for create, PATCH exactly for update, DELETE exactly for delete; the URL (`/users/{id}`, `/roles/{id}`, the collection, or the list URL) and the body of each call |
| QueryCache.Rollback | client/src/components/Roles/RoleActionsMenu.tsx:136-138 | `onError` puts the snapshot back exactly when it is truthy, else keeps the current value |
| QueryCache.Cache.SetQueryData | client/src/components/Users/UserActionsMenu.tsx:103 | `setQueryData` replaces the cached value |
| ToastContext.WithoutToast | client/src/context/ToastContext.tsx:45 | no remaining toast carries the hidden id, and the list is no longer than before |
| ToastContext.WithoutToastMembers | client/src/context/ToastContext.tsx:45 | the filtered list holds exactly the toasts whose id differs |
| ToastContext.WithoutToastAppend | client/src/context/ToastContext.tsx:45 | the filter distributes over concatenation, so the remaining toasts keep their order |
| ToastContext.WithoutUnknownId | client/src/context/ToastContext.tsx:45 | hiding an id no toast carries leaves the list unchanged |
| ToastContext.WithoutToastIdempotent | client/src/context/ToastContext.tsx:44-49 | hiding the same id twice equals hiding it once |
| ToastContext.ShowThenHide | client/src/context/ToastContext.tsx:30-49 | showing a toast with a fresh id and hiding it restores the previous list |
| ToastContext.ToastProvider.constructor | client/src/context/ToastContext.tsx:27-28 | the provider starts with no toasts and closed |
| ToastContext.ToastProvider.ShowToast | client/src/context/ToastContext.tsx:30-42 | appends one toast at the end, keeps the earlier ones, sets open |
| ToastContext.ToastProvider.HideToast | client/src/context/ToastContext.tsx:44-49 | removes every toast with the id; closes when the list held at most one toast before, else leaves open as it was |
| ToastContext.ToastProvider.SetOpen | client/src/context/ToastContext.tsx:68 | the region's open change sets only the flag |
| ToastContext.ToastProvider.ActiveToast | client/src/context/ToastContext.tsx:52 | the displayed toast is the first (oldest) one, none when the list is empty |
| ToastContext.ToastProvider.CloseActiveToast | client/src/context/ToastContext.tsx:82 | the close button hides the displayed toast by its id |
| ToastContext.UseToast | client/src/context/ToastContext.tsx:99-105 | returns the provider in scope, and outside one fails with "useToast must be used within a ToastProvider" |
| Pagination.Decremented | client/src/hooks/usePagination.ts:27-29 | the previous page is p-1 when p > 1, else 1; never below 1 |
| Pagination.NextThenPrev | client/src/hooks/usePagination.ts:23-29 | from p >= 1, `nextPage` then `prevPage` returns to p |
| Pagination.PrevMovesIffHasPrev | client/src/hooks/usePagination.ts:27-40 | from a page at or above 1, `prevPage` moves the page exactly when `hasPrevPage()` holds |
| Pagination.Pager.constructor | client/src/hooks/usePagination.ts:20-21 | the page starts at initialPage, 1 by default |
| Pagination.Pager.SetCurrentPage | client/src/hooks/usePagination.ts:20 | sets the page to the given value |
| Pagination.Pager.NextPage | client/src/hooks/usePagination.ts:23-25 | adds exactly 1 |
| Pagination.Pager.PrevPage | client/src/hooks/usePagination.ts:27-29 | moves to Decremented of the old page |
| Pagination.Pager.ResetPage | client/src/hooks/usePagination.ts:31-33 | sets the page to initialPage, whatever it was, so a second reset changes nothing |
| RoleActionsMenu.MarkDefault | client/src/components/Roles/RoleActionsMenu.tsx:115-120 | every role becomes default exactly when its id is the chosen one; nothing else changes and order and length stay |
| RoleActionsMenu.SetDefaultPatch | client/src/components/Roles/RoleActionsMenu.tsx:110-124 | a cached page gets its roles marked and keeps next/prev/pages; no value or no data array is returned unchanged |
| RoleActionsMenu.MergeForm | client/src/components/Roles/RoleActionsMenu.tsx:168 | `{...r, ...formData}`: the form's name and description, every other field of the role kept |
| RoleActionsMenu.ApplyForm | client/src/components/Roles/RoleActionsMenu.tsx:163-171 | the role with the id takes the form's name and description; every other role is identical |
| RoleActionsMenu.UpdatePatch | client/src/components/Roles/RoleActionsMenu.tsx:161-174 | a cached page gets the form merged and keeps its metadata; anything else is returned unchanged |
| RoleActionsMenu.SetDefaultLeavesOneDefault | client/src/components/Roles/RoleActionsMenu.tsx:110-124 | on a page with distinct ids: ids and metadata kept, at most one default afterwards, and one exactly when the role is on the page |
| RoleActionsMenu.SetDefaultIdempotent | client/src/components/Roles/RoleActionsMenu.tsx:110-124 | setting the same default twice equals setting it once |
| RoleActionsMenu.UpdateTouchesOnlyTheRole | client/src/components/Roles/RoleActionsMenu.tsx:161-174 | the update changes at most one role of a page with distinct ids and keeps ids, default flags and metadata |
| RoleActionsMenu.RollbackUndoesPatches | client/src/components/Roles/RoleActionsMenu.tsx:107-138 | restoring the snapshot taken just before either patch gives back exactly the snapshot, an absent one included |
| RoleActionsMenu.ListedRole | client/src/components/Roles/RolesTable.tsx:54-77 | the role a menu is rendered with comes from the cached page, carries the menu's id, and is found whenever that id is on the page |
| RoleActionsMenu.UpdatePatchRow | client/src/components/Roles/RoleActionsMenu.tsx:161-174 | after the update patch the menu's row is its old row merged with the form, and it is on the page exactly when it was before |
| RoleActionsMenu.SetDefaultPatchRow | client/src/components/Roles/RoleActionsMenu.tsx:110-124 | after the set-default patch the menu's row is its old row flagged default, on the page exactly when it was before |
| RoleActionsMenu.FormDefaults | client/src/components/Roles/RoleActionsMenu.tsx:80-93 | the form starts with the role's name and its description or "" |
| RoleActionsMenu.FormOfMergedRole | client/src/components/Roles/RoleActionsMenu.tsx:88-93 | the form reset to a role merged with a form gets exactly that form back |
| RoleActionsMenu.MenuItems | client/src/components/Roles/RoleActionsMenu.tsx:237-264 | "Set as default" is offered exactly when the role is not default, disabled while pending; otherwise the disabled "Default role" item |
| RoleActionsMenu.ActionButtonFor | client/src/components/Roles/RoleActionsMenu.tsx:334-343 | Retry replaces Save exactly when an error is shown; both are disabled while the update is pending |
| RoleActionsMenu.Menu.constructor | client/src/components/Roles/RoleActionsMenu.tsx:75-93 | dialog closed, no errors, no submission yet, form at the role's values |
| RoleActionsMenu.Menu.RoleChanged | client/src/components/Roles/RoleActionsMenu.tsx:88-93 | a new `role` prop resets the form to that role's values; nothing else changes |
| RoleActionsMenu.Menu.Rerender | client/src/components/Roles/RoleActionsMenu.tsx:88-93 | after a cache write the menu is handed its role's new row, and the form is reset to it; a role no longer on the page leaves the menu as it was; the id never changes |
| RoleActionsMenu.Menu.SelectEdit | client/src/components/Roles/RoleActionsMenu.tsx:237-242 | "Edit role" opens the dialog and changes nothing else |
| RoleActionsMenu.Menu.EditForm | client/src/components/Roles/RoleActionsMenu.tsx:283-297 | typing sets the form values only |
| RoleActionsMenu.Menu.BeginSetAsDefault | client/src/components/Roles/RoleActionsMenu.tsx:98-127 | sends `PATCH /roles/{id}` with `isDefault: true`, snapshots the cache, then applies the set-default patch |
| RoleActionsMenu.Menu.SetAsDefaultSucceeded | client/src/components/Roles/RoleActionsMenu.tsx:128-133 | clears the default error and appends the success toast "Role <name> set as default successfully", with the name the role had when the mutation started |
| RoleActionsMenu.Menu.SetAsDefaultFailed | client/src/components/Roles/RoleActionsMenu.tsx:134-140 | restores a present snapshot and shows the error message or "Failed to set role as default. Please try again." |
| RoleActionsMenu.Menu.SetAsDefault | client/src/components/Roles/RoleActionsMenu.tsx:88-146 | on success the cache holds the patched page and a listed role is flagged default, so the menu offers "Default role"; on success it also appends the toast "Role <name> set as default successfully", with the name from when the mutation began; on failure the cache, the role and the toasts are as before and the error is shown; either way the form is reset to the row; the update's pending flag is untouched |
| RoleActionsMenu.Menu.Mutate | client/src/components/Roles/RoleActionsMenu.tsx:149-177 | `mutate(values)`: sends `PATCH /roles/{id}` with the values, records them as the last submission, snapshots the cache and applies the update patch |
| RoleActionsMenu.Menu.Submit | client/src/components/Roles/RoleActionsMenu.tsx:149-177 | a form with a name sends `PATCH /roles/{id}` with the form values, snapshots the cache and applies the update patch; an empty name sends nothing and changes nothing |
| RoleActionsMenu.Menu.Retry | client/src/components/Roles/RoleActionsMenu.tsx:209-211 | Retry submits whatever the form holds now, the same request as Save; after a failed update that is the rolled-back role's values (see Findings) |
| RoleActionsMenu.Menu.ResubmitLast | client/src/components/Roles/RoleActionsMenu.tsx:209-211 | corrected Retry: sends again the values of the last submission, whatever the form shows; before any submission it is Save |
| RoleActionsMenu.Menu.UpdateSucceeded | client/src/components/Roles/RoleActionsMenu.tsx:178-184 | closes the dialog, clears the error and appends "Role <name> updated successfully", with the name the role had when the mutation started |
| RoleActionsMenu.Menu.UpdateFailed | client/src/components/Roles/RoleActionsMenu.tsx:185-191 | restores a present snapshot and shows the error message or "Something went wrong. Please try again."; the dialog stays as it was |
| RoleActionsMenu.Menu.Update | client/src/components/Roles/RoleActionsMenu.tsx:88-197 | sends the form if it has a name; on success the cache holds the merged page, the dialog is closed, the toast "Role <name> updated successfully" is appended with the name from when the mutation began, and a listed role is the merged row with the form kept; on failure or an empty name the toasts are as before; on failure the cache is as before, the error is shown, and a listed role is back to its old row with the form reset to its pre-edit values; the set-default pending flag is untouched |
| RoleActionsMenu.Menu.Cancel | client/src/components/Roles/RoleActionsMenu.tsx:199-203 | closes the dialog, resets the form to the current role's values, clears the error |
| RoleActionsMenu.Menu.OpenChange | client/src/components/Roles/RoleActionsMenu.tsx:269-275 | sets the dialog's open flag; closing also clears the error and resets the form to the current role's values |
| RoleActionsMenu.RetryAfterFailedRenameAsWritten | client/src/components/Roles/RoleActionsMenu.tsx:88-93 | as written: rename "Admin" to "Owner", the server refuses, Retry sends the name "Admin" |
| RoleActionsMenu.RetryAfterFailedRenameResubmits | client/src/components/Roles/RoleActionsMenu.tsx:209-211 | corrected: the same steps with ResubmitLast send "Owner" again |
| UserActionsMenu.WithoutUser | client/src/components/Users/UserActionsMenu.tsx:85 | the filtered page holds exactly the users whose id differs |
| UserActionsMenu.DeletePatch | client/src/components/Users/UserActionsMenu.tsx:80-89 | a cached page loses the user and keeps next/prev/pages; no value or no data array is returned unchanged |
| UserActionsMenu.WithoutUserAppend | client/src/components/Users/UserActionsMenu.tsx:85 | the filter distributes over concatenation, so the remaining users keep their order |
| UserActionsMenu.WithoutAbsentUser | client/src/components/Users/UserActionsMenu.tsx:85 | deleting an id that is not on the page changes nothing |
| UserActionsMenu.DeleteIdempotent | client/src/components/Users/UserActionsMenu.tsx:80-89 | applying the delete patch twice equals applying it once |
| UserActionsMenu.DeleteRemovesOneRow | client/src/components/Users/UserActionsMenu.tsx:85 | on a page with distinct ids exactly one row goes when the user is on it, none otherwise |
| UserActionsMenu.DeleteKeepsMetadataAndRollsBack | client/src/components/Users/UserActionsMenu.tsx:77-104 | the patch keeps the page metadata, and restoring its snapshot undoes it exactly |
| UserActionsMenu.ActionButtonFor | client/src/components/Users/UserActionsMenu.tsx:188-198 | Retry replaces Delete exactly when an error is shown; both disabled while pending |
| UserActionsMenu.DeleteUnlists | client/src/components/Users/UserActionsMenu.tsx:80-89 | after the delete patch no row of the page has the user's id, so the table has no row for the user |
| UserActionsMenu.Menu.constructor | client/src/components/Users/UserActionsMenu.tsx:61-62 | a mounted menu with the dialog closed and no error |
| UserActionsMenu.Menu.Rerender | client/src/components/Users/UsersTable.tsx:73-94 | rows are keyed by user id: the menu is mounted exactly when its user is on the cached page; a user that comes back gets a menu in the initial state; a mounted menu that stays keeps its state |
| UserActionsMenu.Menu.SelectDelete | client/src/components/Users/UserActionsMenu.tsx:153 | "Delete user" opens the confirmation dialog |
| UserActionsMenu.Menu.OpenChange | client/src/components/Users/UserActionsMenu.tsx:161-180 | the dialog's open change and Cancel set only the open flag; a shown error stays |
| UserActionsMenu.Menu.HandleDelete | client/src/components/Users/UserActionsMenu.tsx:68-116 | sends `DELETE /users/{id}`, snapshots the cache and removes the user from it, which unmounts the menu and its dialog |
| UserActionsMenu.Menu.HandleRetry | client/src/components/Users/UserActionsMenu.tsx:118-120 | Retry sends the same request, applies the same patch and unmounts the menu just as Delete does |
| UserActionsMenu.Menu.DeleteSucceeded | client/src/components/Users/UserActionsMenu.tsx:93-99 | appends "User <name> has been successfully deleted."; closing the dialog and clearing the error take effect only on a mounted menu |
| UserActionsMenu.Menu.DeleteFailed | client/src/components/Users/UserActionsMenu.tsx:100-106 | restores a present snapshot; the message or "Something went wrong. Please try again." reaches the dialog only while the menu is mounted |
| UserActionsMenu.Menu.Delete | client/src/components/Users/UserActionsMenu.tsx:68-112 | the dialog is never left on screen; on success the user is gone from the cache and the menu unmounted; on failure the cache and toasts are exactly as before and a listed user's new menu has the dialog closed, no error and a Delete (not Retry) button |
| UserActionsMenu.DeleteDialog.constructor | client/src/components/Users/UserActionsMenu.tsx:61-62 | corrected design, state held above the rows: dialog closed, no error |
| UserActionsMenu.DeleteDialog.SelectDelete | client/src/components/Users/UserActionsMenu.tsx:153 | corrected design: "Delete user" opens the dialog |
| UserActionsMenu.DeleteDialog.Confirm | client/src/components/Users/UserActionsMenu.tsx:100-106 | corrected design: the same request, patch and rollback; on failure the dialog stays open with the message or the fallback and offers Retry; on success it closes and announces the deletion |
| UserActionsMenu.RefusedDeleteIsSilent | client/src/components/Users/UserActionsMenu.tsx:100-106 | as written: after a refused delete of a listed user no dialog, no error and no toast is shown, and the menu offers Delete |
| UserActionsMenu.RefusedDeleteOffersRetry | client/src/components/Users/UserActionsMenu.tsx:100-106 | corrected: the refused delete leaves the dialog open with "Server error" and a Retry button, and Retry sends `DELETE /users/u1` again |
| ListTab.PrevOf | client/src/components/Users/UsersTab.tsx:68 | `usersData?.prev`: the loaded page's prev, absent when no page is loaded |
| ListTab.NextOf | client/src/components/Roles/RolesTab.tsx:76 | `rolesData?.next`: the loaded page's next, absent when no page is loaded |
| ListTab.PreviousPageFrom | client/src/components/Users/UsersTab.tsx:67-71 | one page back exactly when prev is truthy (neither null nor 0), else unchanged |
| ListTab.NextPageFrom | client/src/components/Users/UsersTab.tsx:73-77 | one page on exactly when next is truthy, else unchanged |
| ListTab.TableData | client/src/components/Users/UsersTab.tsx:112 | the table gets the loaded rows, or [] |
| ListTab.PaginationFor | client/src/components/Users/UsersTab.tsx:114-121 | absent without data; else the current page, `pages`, and the truthiness of next and prev |
| ListTab.ButtonsAgreeWithHandlers | client/src/components/Roles/RolesTab.tsx:69-79 | with no load under way, Next and Previous are clickable exactly when their handlers move the page |
| ListTab.NextThenPrevious | client/src/components/Roles/RolesTab.tsx:69-79 | on a page with both neighbours, Next then Previous (or the reverse) returns to the same page |
| ListTab.QueryCallFor | client/src/components/Users/UsersTab.tsx:43-45 | the query lists the tab's resource with the settled search term and the current page |
| ListTab.QueryUrlCarriesState | client/src/components/Roles/RolesTab.tsx:43-45 | the requested URL is a GET that reads back as the resource, the current page and the settled term |
| ListTab.Render | client/src/components/Users/UsersTab.tsx:103-124 | on error the retry panel with the message or "Failed to load users/roles. Please try again."; else the table with the rows, loading = isLoading \|\| isFetching, and the pagination props |
| ListTab.Tab.constructor | client/src/components/Users/UsersTab.tsx:14-23 | empty search, first page |
| ListTab.Tab.HandleSearchChange | client/src/components/Users/UsersTab.tsx:31-33 | typing changes the search term but not the settled term |
| ListTab.Tab.DebouncedSearchSettled | client/src/components/Users/UsersTab.tsx:26-28 | the settled term catches up; a changed term resets the page to 1, an unchanged one keeps it |
| ListTab.Tab.HandlePreviousPage | client/src/components/Roles/RolesTab.tsx:69-73 | the page moves as PreviousPageFrom the cached page |
| ListTab.Tab.HandleNextPage | client/src/components/Roles/RolesTab.tsx:75-79 | the page moves as NextPageFrom the cached page |
| ListTab.Tab.Dispatch | client/src/components/Users/UsersTab.tsx:119-120 | a pagination click runs the matching handler |
| ListTab.Tab.LoadFailed | client/src/components/Users/UsersTab.tsx:50-52 | a failed load appends the error toast "Failed to load users: <message>" (roles alike) |
| TableView.ModeFor | client/src/components/Users/UsersTable.tsx:44-59 | skeleton exactly when loading with no rows, the empty message exactly when not loading with no rows, rows otherwise |
| TablePaginationRow.PageButtonFor | client/src/components/common/TablePaginationRow.tsx:27-32 | a button is disabled exactly when its direction is unavailable or a load runs, and "soft" exactly when disabled |
| TablePaginationRow.Render | client/src/components/common/TablePaginationRow.tsx:19-55 | label "Page X of Y"; Previous disabled iff !hasPrev \|\| isLoading, Next iff !hasNext \|\| isLoading; soft iff disabled; spinner while loading |
| TablePaginationRow.Click | client/src/components/common/TablePaginationRow.tsx:32-44 | an enabled button invokes its callback, a disabled one nothing |
| TablePaginationRow.ClicksReachTheirCallbacks | client/src/components/common/TablePaginationRow.tsx:31-44 | Previous invokes onPrevPage and Next onNextPage, each exactly when enabled |
| TablePaginationRow.PageLabelRoundTrip | client/src/components/common/TablePaginationRow.tsx:24 | the label reads back as the current page and the total |
| Types.FindIndex | client/src/components/Users/UsersTable.tsx:31 | the first position of a role with the id, or the length |
| Types.FindRole | client/src/components/Users/UsersTable.tsx:31 | `find`: absent exactly when no role has the id, else the first one that does |
| Types.FindIndexFollowsIds | client/src/components/Roles/RoleActionsMenu.tsx:163-170 | lists with the same ids in the same order have their first role with an id at the same place, so patches that keep ids keep the row a menu is rendered from |
| UsersTable.GetRoleName | client/src/components/Users/UsersTable.tsx:30-33 | the first matching role's name, or "Unknown Role" with no match or no roles loaded |
| UsersTable.RoleNameOfListedRole | client/src/components/Users/UsersTable.tsx:30-33 | with distinct ids, a listed role's id shows that role's name |
| UsersTable.FirstChar | client/src/components/Users/UsersTable.tsx:80 | `charAt(0)`: the first character, or "" |
| UsersTable.RowFor | client/src/components/Users/UsersTable.tsx:73-97 | avatar source = photo, initials from the first characters of first and last name, "first last", role name, formatted updatedAt, menu with the user's id and name |
| UsersTable.Rows | client/src/components/Users/UsersTable.tsx:73 | one row per user, in input order |
| UsersTable.Render | client/src/components/Users/UsersTable.tsx:43-108 | 5-row skeleton iff loading with no users, "No users found." iff not loading with no users, else the rows and a pagination row iff there is more than one page |
| UsersTable.MenusFollowRows | client/src/components/Users/UsersTable.tsx:94 | with distinct ids no two rows' menus act on the same user |
| RolesTable.DescriptionText | client/src/components/Roles/RolesTable.tsx:62 | the description when non-empty, else "-" |
| RolesTable.RowFor | client/src/components/Roles/RolesTable.tsx:55-79 | name, description text, a Default badge exactly when the role is default, the menu for the role |
| RolesTable.Rows | client/src/components/Roles/RolesTable.tsx:54 | one row per role, in input order |
| RolesTable.Render | client/src/components/Roles/RolesTable.tsx:24-91 | 4-row skeleton iff loading with no roles, "No roles found." iff not loading with no roles, else the rows and a pagination row iff there is more than one page |
| RolesTable.CountDefaults | client/src/components/Roles/RolesTable.tsx:65 | the count of default roles is zero exactly when none is default |
| RolesTable.BadgesCountDefaults | client/src/components/Roles/RolesTable.tsx:65-74 | the table shows one Default badge per default role |
| RolesTable.SingleDefaultCountsOne | client/src/components/Roles/RolesTable.tsx:65-74 | a list with a single default role counts one |
| RolesTable.SetDefaultShowsOneBadge | client/src/components/Roles/RoleActionsMenu.tsx:110-124 | after "Set as default" on a page with distinct ids, the table shows exactly one badge, on that role's row |

## Left out

- Axios instance, base URL, timeout, headers and development logging (client/src/api/apiService.ts:23-29, 41-43): configuration and I/O; responses are inputs.
- Real sleeping in `retryRequest`: the delays are returned as data instead.
- `useDebounce`'s 500 ms timer: the moment the debounced value catches up is the call `DebouncedSearchSettled`.
- The tabs' 10 ms refetch timer and react-query's fetching, `cancelQueries`, `invalidateQueries`, `keepPreviousData` and stale times:
  - the query status flags are inputs of `ListTab.Render`;
  - the cache is one value per key, changed only by `setQueryData`.
- The toast's 5-second auto-hide timer: a toast is hidden by calling `HideToast`. When the timer fires, the source's `hideToast` reads `toasts` from the render that scheduled it. `HideToast` reads the current list instead.
- Toast ids built from the clock and a random number: the id is a parameter.
- `formatIsoToShortUS` (`Intl.DateTimeFormat`): a foreign call, passed to `UsersTable.Render` as a function.
- `UsersTable.GetRoleName` reads the cached roles page under the same query key the Roles tab uses. Which page and search that is depends on react-query, so the page is an input.
- A roles value with no `data` array would throw in `getRoleName`. This case is not modelled: the input is a page or nothing.
- Form validation is react-hook-form's. Only the `required` rule on the role name (`RoleActionsMenu.FormValid`) is modelled.
- `UsersTable.FirstChar` works on Unicode scalar values. JavaScript's `charAt(0)` returns half of a surrogate pair for a character outside the Basic Multilingual Plane.
- Item ids are placed in `/users/{id}` and `/roles/{id}` as they are. The source does not encode them, and neither does `ApiService.Route`.
- Unused service calls (`getUser`, `createUser`, `updateUser`, `getRole`, `createRole`, `deleteRole`): only their routes are modelled, in `ApiService.Route`.
- The menus' "Edit user" and "Delete role" items have no handlers in the source, so they are not modelled.
- Markup, styling, icons, skeleton components and App wiring.
- Uri.EncodeURIComponent: Dafny's `char` is a Unicode scalar value, so a search term holding a lone surrogate cannot be written. In the source `encodeURIComponent` throws a `URIError` on it. That throw happens inside the function `retryRequest` retries, so such a term is tried `maxRetries + 1` times and ends in an error that is not an `ApiError`. This error path is not modelled.
- RoleActionsMenu.Menu.Rerender: React runs the reset effect when the `role` prop is a new object, which values cannot tell apart. The model calls `Rerender` after the menu's own writes to the cache, each of which replaces the role's row. The refetch after a mutation settles hands the menu the server's row, which is a call to `RoleChanged`. The set-default patch also hands every other listed role's menu a new row and resets its form. The model follows one menu.
- UserActionsMenu.Menu.Rerender: React mounts a new component for a row that comes back, while the model resets the same object. The old mutation's later callbacks would reach the old instance; in the model none of them sets state after the rollback. The `onSettled` and `onSuccess` refetches are left out with `invalidateQueries`, so after a successful delete the user stays off the page until a later fetch.
- ListTab.PreviousPageFrom: like the source, it does not clamp at page 1. A loaded page with a truthy `prev` on page 1 moves to page 0. Unlike `prevPage`, which clamps, the handler trusts the server's `prev`.

## Findings

| source | as written | input that shows it | evidently intended | confidence | as-written member | corrected member |
|---|---|---|---|---|---|---|
| client/src/components/Roles/RoleActionsMenu.tsx:209-211 | Retry runs `handleSubmit(onSubmit)` on the current form. After a failed update, `onError` restores the snapshot (:185-189). The menu is then handed the old row, and the effect at :88-93 resets the form to it. So Retry sends the pre-edit values. | Role "Admin", renamed to "Owner" in the dialog; the server refuses the update; then Retry. Retry sends name "Admin". | Retry sends the values of the submission that failed ("Owner"). | medium, not executed | RoleActionsMenu.RetryAfterFailedRenameAsWritten | RoleActionsMenu.RetryAfterFailedRenameResubmits |
| client/src/components/Users/UserActionsMenu.tsx:100-106 | `onError` restores the snapshot and calls `setError` on the menu. The menu sits in the user's row, which the table keys by user id (UsersTable.tsx:73, 94). The patch at :80-89 removed that row, so the menu and its dialog were unmounted before the answer, and the error is set on a menu that is gone. The rollback mounts a new menu in its initial state (:61-62). | Page with users "u1" (Ann) and "u2" (Bob); delete Ann; the server refuses with "Server error". No dialog, no error and no toast is shown, and the Retry button (:188-192) is never reached. | The dialog stays open with the error and a Retry button that sends the delete again. | high, not executed | UserActionsMenu.RefusedDeleteIsSilent | UserActionsMenu.RefusedDeleteOffersRetry |
