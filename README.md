# Adopter waitlist: validators and table contracts, in Dafny

This project models the checkable core of a small pet-adoption waitlist app (Node.js, Express and MySQL). The app registers *interessados* (prospective adopters, identified by a Brazilian CPF) and *filhotes* (young animals).

The model covers two layers:

- **Validation and formatting.** This is the CPF modulo-11 check-digit scheme in its four copies, the email and telephone validators, and the CPF and telephone masks. The copies are the server's `validators.js`, the browser's `utils.js` and `utils/validators.js`, and the helpers of the page script `interessados.js`.
- **The create/read/update/delete contract.** Each table is a class holding a map from primary key to row plus the `AUTO_INCREMENT` counter. On top of it sit three things:
  - the server's models and controllers;
  - the stand-alone router `interessadosRoutes.js`, which the server never mounts (`src/server/config/server.js` mounts `routes/interessados` instead) and which is modelled on its own;
  - the older `src/models` and `src/controllers` tree.

Every handler is a method over the table. Its contract says which response it gives and what the table holds afterwards, for every outcome.

Modules, by source file:

| module | source |
|---|---|
| `Digits`, `Cpf`, `Masks`, `ServerValidators` | `src/server/utils/validators.js` (and the identical `validarCPF`, `validarEmail`, `validarTelefone`, `limparNumeros` of `src/public/assets/js/utils.js`) |
| `BrowserUtils` | `formatarCPF`, `formatarTelefone` of `src/public/assets/js/utils.js` |
| `ClientValidators` | `src/public/assets/js/utils/validators.js` |
| `InteressadosPage` | the helpers and the CPF input mask of `src/public/assets/js/interessados.js` |
| `Ordering`, `Database`, `Http` | `ORDER BY`, the MySQL table and driver results, JavaScript values, responses and the 500 error middleware |
| `InteressadoModel`, `FilhoteModel` | `src/server/models/*.js` |
| `InteressadoController`, `FilhoteController` | `src/server/controllers/*.js` |
| `InteressadosRoutes` | `src/server/routes/interessadosRoutes.js` |
| `LegacyInteressadoModel`, `LegacyFilhoteModel` | `src/models/*.js` |
| `LegacyInteressadoController`, `LegacyFilhoteController` | `src/controllers/*.js` |

The CPF scheme is stated once, as the function `Cpf.IsValid`. Each imperative copy of `validarCPF` is a method with loops, and its postcondition is `valid == Cpf.IsValid(input)`. The copies are:

- the early-return form of the server and `utils.js`;
- the conjunction form of `interessados.js`;
- the `(soma * 10) % 11` form of `utils/validators.js`.

A storage failure is a parameter `fault` that names which statement of a call the driver rejects. The clock is a parameter `now`.

The code has no uniqueness check on `cpf` and no conflict branch, so a duplicate can surface only as a driver error, which the model covers through `fault`. `interessadosRoutes.js` reports only the first failing check, and the server controller checks only that the fields are present.

## Model

| member | source | states |
|---|---|---|
| Digits.LimparNumeros | src/server/utils/validators.js:11 | the result holds only digits and is no longer than the input |
| Digits.LimparNumerosKeepsDigits | src/server/utils/validators.js:11 | every digit character occurs in the result exactly as often as in the input, and no other character occurs |
| Digits.LimparNumerosAppend | src/server/utils/validators.js:11 | cleaning distributes over concatenation, so the digits come out in input order |
| Digits.LimparNumerosOfDigits | src/server/utils/validators.js:11 | a string of digits is left unchanged |
| Digits.LimparNumerosOfNonDigits | src/server/utils/validators.js:11 | a string with no digit cleans to the empty string |
| Digits.LimparNumerosIdempotent | src/server/utils/validators.js:11 | cleaning twice is cleaning once |
| Cpf.IsValid | src/server/utils/validators.js:21-50 | the CPF rule on the cleaned digits; a valid CPF has 11 digits, and each check digit completes its weighted sum to a multiple of 11, except where the sum leaves remainder 1 and the digit is written as 0 |
| Cpf.CheckDigit | src/server/utils/validators.js:36-37 | `11 - s % 11`, with values above 9 read as 0, is a digit; it is 0 exactly when `s % 11 <= 1`, and otherwise it makes `s + dv` a multiple of 11 |
| Cpf.InvalidUnlessElevenDigits | src/server/utils/validators.js:23-26 | a CPF whose cleaned form does not have 11 digits is invalid |
| Cpf.InvalidWhenRepeated | src/server/utils/validators.js:28-29 | eleven copies of one digit are invalid |
| Cpf.IsValidIff | src/server/utils/validators.js:21-50 | the rule written out in one statement, by unfolding the definitions: valid iff the cleaned string has 11 digits, they are not all equal, and both check digits (weights 10..2 over nine digits, 11..2 over ten) match the last two |
| Cpf.InvariantUnderCleaning | src/server/utils/validators.js:23 | validity of a string equals validity of its cleaned digits |
| Cpf.AltCheckDigit | src/public/assets/js/utils/validators.js:26-27 | `(s * 10) % 11`, with 10 or 11 read as 0, is a digit |
| Cpf.AltCheckDigitAgrees | src/public/assets/js/utils/validators.js:26-27 | for every non-negative sum the `(s * 10) % 11` rule gives the same digit as the `11 - s % 11` rule |
| Cpf.AltRemainderBelowEleven | src/public/assets/js/utils/validators.js:27 | the `resto === 11` case can never happen |
| Cpf.ValidVector | src/server/utils/validators.js:21-50 | "52998224725" is valid |
| Cpf.RepeatedVector | src/server/utils/validators.js:19 | "11111111111" is invalid |
| Cpf.MismatchSample | src/server/utils/validators.js:18 | for 123456789-00 the check digits are 0 and 9, so the CPF is invalid |
| Cpf.MismatchVector | src/server/utils/validators.js:18 | "12345678900" is invalid, against the doc comment's example |
| Cpf.MaskedValidity | src/server/utils/validators.js:23 | the masked form `ddd.ddd.ddd-dd` of 11 digits is valid exactly when the digits are |
| ServerValidators.ValidarCpf | src/server/utils/validators.js:21-50 | the loops accumulate the weighted sums, and the early-return method answers exactly `Cpf.IsValid(input)`; `validarCPF` of `src/public/assets/js/utils.js` (lines 61-90) is the same code |
| ServerValidators.LastIndexOf | src/server/utils/validators.js:61 | the last position of a character, or none when it does not occur |
| ServerValidators.ValidarEmail | src/server/utils/validators.js:60-63 | the regular expression, decided from the longest local-part prefix and the last '.'; every accepted string matches the pattern |
| ServerValidators.ValidarEmailIsPattern | src/server/utils/validators.js:60-63 | accepted iff the string splits into a non-empty `[A-Za-z0-9._%+-]` local part, '@', a non-empty `[A-Za-z0-9.-]` domain, '.', and at least two letters |
| ServerValidators.EmailHasOneAt | src/server/utils/validators.js:61 | an accepted address holds exactly one '@' |
| ServerValidators.EmailAccepted | src/server/utils/validators.js:57 | "usuario@dominio.com" is accepted |
| ServerValidators.EmailWithoutAtRejected | src/server/utils/validators.js:61 | a string without '@' is rejected |
| ServerValidators.EmailRejected | src/server/utils/validators.js:58 | "email.invalido" is rejected |
| ServerValidators.ValidarTelefone | src/server/utils/validators.js:74-80 | ten or eleven digits once punctuation is removed; an accepted string has at least 10 characters, and a string of bare digits is accepted iff it has 10 or 11 |
| ServerValidators.TelefoneAccepted | src/server/utils/validators.js:70-71 | "(11) 98765-4321" is accepted |
| ServerValidators.TelefoneRejected | src/server/utils/validators.js:72 | "123" is rejected |
| Masks.FirstRun | src/public/assets/js/utils.js:18 | the leftmost position where a run of n digits starts, with no run before it, as the regular expression's search finds it |
| Masks.ReplaceCpf | src/public/assets/js/utils.js:18 | the non-global `replace` of `(\d{3})(\d{3})(\d{3})(\d{2})`: the first run of 11 digits gets the CPF mask, and the rest of the string is kept |
| Masks.ReplacePhone | src/public/assets/js/utils.js:33-37 | the non-global `replace` of `(\d{2})(\d{4})(\d{4})` or `(\d{2})(\d{5})(\d{4})`: the first run of 10 or 11 digits gets the telephone mask |
| Masks.ReplacePhoneFlexible | src/public/assets/js/utils/validators.js:98 | the non-global `replace` of `(\d{2})(\d{4,5})(\d{4})`: the first run of 10 digits is masked, with five middle digits when an eleventh follows |
| Masks.CpfMaskDigits | src/public/assets/js/utils.js:18 | the mask `ddd.ddd.ddd-dd` cleans back to its 11 digits |
| Masks.PhoneMaskDigits | src/public/assets/js/utils.js:34-36 | the masks `(dd) dddd[d]-dddd` clean back to their digits |
| Masks.ReplaceCpfKeepsDigits | src/public/assets/js/utils.js:18 | replacing the first 11-digit run by its mask keeps every digit, in order |
| Masks.ReplacePhoneKeepsDigits | src/public/assets/js/utils.js:34-36 | replacing the first telephone-shaped run keeps every digit |
| Masks.ReplacePhoneFlexibleKeepsDigits | src/public/assets/js/utils/validators.js:98 | the `\d{4,5}` replacement keeps every digit |
| Masks.ReplaceCpfOfDigits | src/public/assets/js/utils.js:18 | on digits, fewer than 11 are left alone and otherwise the first 11 are masked and the rest kept |
| Masks.ReplacePhoneOfDigits | src/public/assets/js/utils.js:33-37 | a string of exactly 10 digits (middle group of 4) or 11 digits (middle group of 5) is masked as a whole |
| Masks.ReplacePhoneFlexibleOfDigits | src/public/assets/js/utils/validators.js:97-99 | 10 or 11 digits get the telephone mask, the greedy `\d{4,5}` taking five when there are 11 |
| BrowserUtils.FormatarCpf | src/public/assets/js/utils.js:13-19 | clean, then mask the first run of 11 digits |
| BrowserUtils.FormatarTelefone | src/public/assets/js/utils.js:28-40 | clean, then mask 11 digits as `(dd) ddddd-dddd` and 10 as `(dd) dddd-dddd`; any other count comes back cleaned |
| BrowserUtils.FormatarCpfShape | src/public/assets/js/utils.js:13-19 | 11 cleaned digits give `ddd.ddd.ddd-dd`, fewer come back as bare digits, more have only the first 11 masked |
| BrowserUtils.FormatarCpfKeepsDigits | src/public/assets/js/utils.js:15-18 | cleaning the formatted CPF gives the cleaned input |
| BrowserUtils.FormatarCpfKeepsValidity | src/public/assets/js/utils.js:13-19 | formatting never changes whether a CPF is valid |
| BrowserUtils.FormatarCpfOfDigits | src/public/assets/js/utils.js:13-19 | eleven bare digits are shown as `ddd.ddd.ddd-dd` |
| BrowserUtils.FormatarCpfExample | src/public/assets/js/utils.js:11 | '12345678900' becomes '123.456.789-00' |
| BrowserUtils.FormatarTelefoneShape | src/public/assets/js/utils.js:28-40 | 10 or 11 digits get `(dd) dddd-dddd` or `(dd) ddddd-dddd`, and any other count comes back cleaned |
| BrowserUtils.FormatarTelefoneKeepsDigits | src/public/assets/js/utils.js:28-40 | cleaning the formatted number gives the cleaned input |
| BrowserUtils.FormatarTelefoneKeepsValidity | src/public/assets/js/utils.js:114-120 | `validarTelefone` of the formatted number equals `validarTelefone` of the input |
| BrowserUtils.FormatarTelefoneOfDigits | src/public/assets/js/utils.js:28-40 | ten or eleven bare digits are shown masked |
| BrowserUtils.FormatarTelefoneExample | src/public/assets/js/utils.js:26 | '11987654321' becomes '(11) 98765-4321' |
| ClientValidators.Cpf | src/public/assets/js/utils/validators.js:10-40 | the loops from `i = 1` and the `(soma * 10) % 11` digits give exactly `Cpf.IsValid(input)`, the server's verdict |
| ClientValidators.Email | src/public/assets/js/utils/validators.js:47-50 | the first '@' is not at the start, no other character is white space or '@', and a '.' after the '@' has a character on each side |
| ClientValidators.Telefone | src/public/assets/js/utils/validators.js:57-60 | `(dd) dddd-dddd` or `(dd) ddddd-dddd`, character by character |
| ClientValidators.FormatCpf | src/public/assets/js/utils/validators.js:88-90 | the CPF mask on the first run of 11 digits of the string as given, without cleaning it |
| ClientValidators.FormatTelefone | src/public/assets/js/utils/validators.js:97-99 | the flexible telephone mask on the first run of 10 digits of the string as given |
| ClientValidators.IndexOf | src/public/assets/js/utils/validators.js:48 | the first position of a character, or none |
| ClientValidators.EmailIsPattern | src/public/assets/js/utils/validators.js:47-50 | accepted iff the string has an '@' after at least one character, no white space and no second '@', and a '.' after the '@' with at least one character on each side |
| ClientValidators.ServerEmailImpliesClientEmail | src/public/assets/js/utils/validators.js:47-50 | every address the server accepts, the browser accepts too |
| ClientValidators.ClientEmailLooser | src/public/assets/js/utils/validators.js:47-50 | "a@b.c" passes the browser check but not the server's |
| ClientValidators.TelefoneIsMask | src/public/assets/js/utils/validators.js:57-60 | accepted iff the string is the telephone mask of 10 or 11 digits |
| ClientValidators.TelefoneOfMask | src/public/assets/js/utils/validators.js:58 | every masked 10- or 11-digit number is accepted |
| ClientValidators.TelefoneOfFormatTelefone | src/public/assets/js/utils/validators.js:58 | `telefone(formatTelefone(d))` holds for every 10- or 11-digit string |
| ClientValidators.TelefoneOfFormatarTelefone | src/public/assets/js/utils/validators.js:57-60 | the browser check accepts the output of `utils.js`'s `formatarTelefone` exactly when the server accepts its input |
| ClientValidators.FormatCpfOfDigits | src/public/assets/js/utils/validators.js:88-90 | 11 digits become `ddd.ddd.ddd-dd` |
| ClientValidators.FormatCpfKeepsValidity | src/public/assets/js/utils/validators.js:88-90 | `cpf(formatCPF(s)) == cpf(s)` for every string |
| InteressadosPage.FormatarCpf | src/public/assets/js/interessados.js:258-263 | '' for an empty value, the mask for exactly 11 cleaned digits, the bare digits otherwise |
| InteressadosPage.FormatarTelefone | src/public/assets/js/interessados.js:310-317 | '' for an empty value, the mask for exactly 11 cleaned digits, the bare digits otherwise |
| InteressadosPage.CpfInputMask | src/public/assets/js/interessados.js:299-303 | the listener's new text: the typed digits, cut to the first 11, through the page's `formatarCPF` |
| InteressadosPage.ValidarCpf | src/public/assets/js/interessados.js:270-296 | the loops and the final conjunction give exactly `Cpf.IsValid(input)` |
| InteressadosPage.RepeatedAnyOnEleven | src/public/assets/js/interessados.js:276 | on 11 characters `^(\d)\1+$` and `^(\d)\1{10}$` agree |
| InteressadosPage.FormatarCpfAgreesWithUtils | src/public/assets/js/interessados.js:258-263 | up to 11 digits this `formatarCPF` agrees with `utils.js`'s; beyond 11 it returns the bare digits |
| InteressadosPage.FormatarCpfKeepsDigits | src/public/assets/js/interessados.js:258-263 | the page's formatter only adds punctuation: cleaning its output gives the cleaned input |
| InteressadosPage.FormatarTelefoneShape | src/public/assets/js/interessados.js:310-317 | only 11 digits are masked; every other count, 10 included, comes back as bare digits |
| InteressadosPage.CpfInputMaskDigits | src/public/assets/js/interessados.js:299-303 | the field keeps the first 11 typed digits, at most 11 |
| InteressadosPage.CpfInputMaskComplete | src/public/assets/js/interessados.js:299-303 | once 11 digits are typed, the field shows the full mask of the first 11 |
| InteressadosPage.CpfInputMaskIdempotent | src/public/assets/js/interessados.js:299-303 | a second input event on the masked text changes nothing |
| InteressadosPage.CpfField.constructor | src/public/assets/js/interessados.js:299 | the field holds the typed text before any input event |
| InteressadosPage.CpfField.OnInput | src/public/assets/js/interessados.js:299-303 | the listener rewrites the field's value to the mask of its first 11 digits |
| Ordering.SortBy | src/server/models/Interessado.js:40 | `ORDER BY` returns a permutation of the scanned rows |
| Ordering.SortBySorted | src/server/models/Interessado.js:40 | under a total preorder the result is sorted |
| Ordering.NullsFirstLeIsTotalPreorder | src/server/models/Interessado.js:40 | ascending text order with NULL first is total and transitive |
| Ordering.NullsLastDescLeIsTotalPreorder | src/server/models/Filhote.js:20 | descending time order with NULL last is total and transitive |
| Database.ScanIsTable | src/models/Interessado.js:28-29 | a key-order scan holds each row once and nothing else |
| Database.Table.Insert | src/server/models/Interessado.js:84-87 | a fresh key equal to the counter, the row stored under it, the counter advanced; nothing changes on failure |
| Database.Table.UpdateWhereId | src/server/models/Interessado.js:111-114 | only the row with the key changes; `affectedRows` is 1 or 0 |
| Database.Table.DeleteWhereId | src/server/models/Interessado.js:137 | the key is removed; `affectedRows` tells whether it was there |
| Database.Table.SelectWhereId | src/server/models/Interessado.js:58 | one row when the key is present, none otherwise |
| Database.Table.SelectAll | src/models/Interessado.js:28 | every row once |
| Database.Table.SelectOrderedBy | src/server/models/Interessado.js:40 | every row once, sorted by the order |
| Http.Deliver | src/server/config/server.js:62-65 | an error passed to `next` becomes 500 'Erro interno do servidor' |
| Http.Spread | src/controllers/InteressadoController.js:17 | `{ id, ...body }` has the body's fields, and the body's own `id` hides the given one |
| InteressadoModel.FromRows | src/server/models/Interessado.js:41 | one record per row, in order, holding id, nome, email, telefone and cpf |
| InteressadoModel.ListingIsTable | src/server/models/Interessado.js:40-41 | `findAll` lists the record of every row once and nothing else |
| InteressadoModel.ListingSorted | src/server/models/Interessado.js:40 | `findAll` is ordered by `nome`, NULL first |
| InteressadoModel.NomeLeIsTotalPreorder | src/server/models/Interessado.js:40 | `ORDER BY nome` compares every pair of rows, transitively |
| InteressadoModel.FindAll | src/server/models/Interessado.js:38-46 | the sorted records, or an Error 'Erro ao buscar interessados' |
| InteressadoModel.FindById | src/server/models/Interessado.js:56-67 | the record of the row with the key, `null` when absent, or an Error 'Erro ao buscar interessado' |
| InteressadoModel.Create | src/server/models/Interessado.js:81-93 | inserts the four fields under a fresh key and returns the re-read record equal to the input; an insert failure gives 'Erro ao criar interessado' with no change, and a failed re-read keeps its own message |
| InteressadoModel.Update | src/server/models/Interessado.js:108-125 | an absent key gives `null` and no change; otherwise exactly that row's four fields are replaced and the re-read record returned |
| InteressadoModel.Delete | src/server/models/Interessado.js:135-143 | true iff a row was removed; the key is absent afterwards; other rows unchanged |
| FilhoteModel.ListingIsTable | src/server/models/Filhote.js:20-21 | `findAll` holds every row once, latest `created_at` first, NULL last |
| FilhoteModel.CreatedAtDescIsTotalPreorder | src/server/models/Filhote.js:20 | `ORDER BY created_at DESC` compares every pair of rows, transitively |
| FilhoteModel.FindAll | src/server/models/Filhote.js:18-26 | the sorted rows, or the driver's error unchanged |
| FilhoteModel.FindById | src/server/models/Filhote.js:34-42 | the row, or `null` when absent |
| FilhoteModel.Create | src/server/models/Filhote.js:52-67 | stores especie, raca and `created_at = now` under a fresh key, and returns the re-read row |
| FilhoteModel.Update | src/server/models/Filhote.js:78-93 | sets especie, raca and `updated_at = now` on every call, then returns `findById`, `null` when absent |
| FilhoteModel.Delete | src/server/models/Filhote.js:101-109 | true iff a row was removed; other rows unchanged |
| InteressadoController.ListarTodos | src/server/controllers/InteressadoController.js:21-29 | 200 with the sorted records, or the error passed to `next` |
| InteressadoController.BuscarPorId | src/server/controllers/InteressadoController.js:39-53 | 404 when the model answers `null`, otherwise 200 with the record |
| InteressadoController.Criar | src/server/controllers/InteressadoController.js:63-77 | a missing or empty field gives 400 and no insert; otherwise the values are stored with no format check, and the answer is 201 with the record |
| InteressadoController.Atualizar | src/server/controllers/InteressadoController.js:87-107 | the field check comes first; an absent key gives 404 and no change; otherwise the row is replaced and 200 returned |
| InteressadoController.Remover | src/server/controllers/InteressadoController.js:117-131 | 404 when nothing was removed, otherwise 204 and the row gone |
| FilhoteController.ListarTodos | src/server/controllers/FilhoteController.js:21-29 | 200 with the rows, newest first, or `next(error)` |
| FilhoteController.BuscarPorId | src/server/controllers/FilhoteController.js:39-60 | 404 with both messages for an absent key, otherwise 200 with the row |
| FilhoteController.Criar | src/server/controllers/FilhoteController.js:70-90 | an empty especie or raca gives 400 and no insert; otherwise 201 with the row built from those two fields and `now` |
| FilhoteController.Atualizar | src/server/controllers/FilhoteController.js:100-127 | validates, then looks up (404 and no update when absent), then updates and answers 200 with the stamped row |
| FilhoteController.Remover | src/server/controllers/FilhoteController.js:137-151 | 404 when nothing was removed, otherwise 204 with an empty body |
| InteressadosRoutes.FirstFailureFrom | src/server/routes/interessadosRoutes.js:52-66 | the first failing check from k on, or none when all pass |
| InteressadosRoutes.FirstFailure | src/server/routes/interessadosRoutes.js:52-66 | the reported check fails and every earlier check passed; nothing is reported iff all four pass |
| InteressadosRoutes.CpfReportedBeforeEmail | src/server/routes/interessadosRoutes.js:56-62 | an invalid CPF is what is reported, whatever the email and telephone |
| InteressadosRoutes.Validar | src/server/routes/interessadosRoutes.js:52-66 | the handlers' if-chain, with `validarCPF`, reports exactly `FirstFailure` |
| InteressadosRoutes.ListAsWrittenSendsPair | src/server/routes/interessadosRoutes.js:19-20 | as written, `GET /` sends `[rows, fields]` instead of the rows |
| InteressadosRoutes.FindAsWrittenNeverNotFound | src/server/routes/interessadosRoutes.js:33-37 | as written, `GET /:id` answers 200 with the rows array for every result, so never 404 |
| InteressadosRoutes.CreateAsWrittenLosesId | src/server/routes/interessadosRoutes.js:73 | as written, the 201 body's `id` is `undefined` |
| InteressadosRoutes.UpdateAsWrittenNeverNotFound | src/server/routes/interessadosRoutes.js:110-114 | as written, `PUT` answers 200 even when no row matched |
| InteressadosRoutes.RemoveAsWrittenNeverNotFound | src/server/routes/interessadosRoutes.js:129-133 | as written, `DELETE` answers 200 even when no row was removed |
| InteressadosRoutes.Get | src/server/routes/interessadosRoutes.js:17-24 | 200 with every row ordered by `nome`, or 500 'Erro ao buscar interessados' |
| InteressadosRoutes.GetById | src/server/routes/interessadosRoutes.js:31-41 | 404 exactly when no row has the key, otherwise 200 with the row |
| InteressadosRoutes.Post | src/server/routes/interessadosRoutes.js:48-77 | the first failing check gives its 400 and no insert; otherwise the five fields are inserted and the answer is 201 with the new key |
| InteressadosRoutes.Put | src/server/routes/interessadosRoutes.js:84-118 | the same checks; then 404 and no change for an absent key, otherwise the five fields replaced and 200 |
| InteressadosRoutes.Delete | src/server/routes/interessadosRoutes.js:125-137 | 404 when no row was removed, otherwise the row gone and 200 with a message |
| LegacyInteressadoModel.Create | src/models/Interessado.js:14-21 | a missing field is refused by `execute` with no change; otherwise inserts cpf, nome, telefone and email under a fresh key and returns the header with `insertId` |
| LegacyInteressadoModel.FindAll | src/models/Interessado.js:27-30 | every row once, with no order promised |
| LegacyInteressadoModel.FindById | src/models/Interessado.js:37-40 | the first matching row, or `undefined` |
| LegacyInteressadoModel.Update | src/models/Interessado.js:48-55 | a missing field is refused with no change; otherwise sets the four columns of that row only, `affectedRows` 1 or 0 |
| LegacyInteressadoModel.Delete | src/models/Interessado.js:62-65 | removes the row, if any; `affectedRows` tells whether it existed |
| LegacyFilhoteModel.Create | src/models/Filhote.js:14-21 | a missing field is refused with no change; otherwise inserts especie and raca, with no timestamp, and returns the header with `insertId` |
| LegacyFilhoteModel.FindAll | src/models/Filhote.js:27-30 | every row once, unordered |
| LegacyFilhoteModel.FindById | src/models/Filhote.js:37-40 | the first matching row, or `undefined` |
| LegacyFilhoteModel.Update | src/models/Filhote.js:48-55 | a missing field is refused with no change; otherwise sets especie and raca of that row only, `affectedRows` 1 or 0 |
| LegacyFilhoteModel.Delete | src/models/Filhote.js:62-65 | removes the row; `affectedRows` tells whether it existed |
| LegacyInteressadoController.Create | src/controllers/InteressadoController.js:14-21 | no validation; 201 with `{ id: insertId, ...body }`, an echo and not a re-read; 500 on any error, a missing field included |
| LegacyInteressadoController.FindAll | src/controllers/InteressadoController.js:28-35 | 200 with every row once, or 500 |
| LegacyInteressadoController.FindById | src/controllers/InteressadoController.js:42-52 | 404 when there is no row, otherwise 200 with it |
| LegacyInteressadoController.Update | src/controllers/InteressadoController.js:59-69 | 404 when `affectedRows` is 0, otherwise 200 echoing `{ id, ...body }` |
| LegacyInteressadoController.Delete | src/controllers/InteressadoController.js:76-86 | 404 when `affectedRows` is 0, otherwise 204 |
| LegacyFilhoteController.Create | src/controllers/FilhoteController.js:14-21 | no validation; 201 with `{ id: insertId, ...body }`; 500 on any error |
| LegacyFilhoteController.FindAll | src/controllers/FilhoteController.js:28-35 | 200 with every row once, or 500 |
| LegacyFilhoteController.FindById | src/controllers/FilhoteController.js:42-52 | 404 when there is no row, otherwise 200 with it |
| LegacyFilhoteController.Update | src/controllers/FilhoteController.js:59-69 | 404 when `affectedRows` is 0, otherwise 200 echoing `{ id, ...body }` |
| LegacyFilhoteController.Delete | src/controllers/FilhoteController.js:76-86 | 404 when `affectedRows` is 0, otherwise 204 |

## Left out

**Not modelled**
- The DOM: event wiring, rendering and `validators.required`. Only the CPF input listener's rewrite of the field's text is modelled, as `InteressadosPage.CpfField.OnInput`.
- The HTTP clients, the Express wiring and startup, the connection pools, the environment and process signals.
- Concurrency and transactions: each call runs alone against the table.
- Parsing of `req.params.id`: keys are natural numbers. A non-numeric path segment, which matches no row in MySQL, is not modelled.

**Data representation**
- The interessados' `created_at` and `updated_at` columns and the record's copies of them are left out. Filhote timestamps are kept, as the instant they name. Their `YYYY-MM-DD HH:MM:SS` text and JSON date form are not modelled.
- Any column default the schema may give is left out. In particular, the older tree's filhote rows get no `created_at`, since the code writes none.
- `ORDER BY` compares text by code point, not by MySQL collation. Rows that compare equal keep key order, which SQL does not promise. The sortedness lemmas hold for any tie order.
- The older tree's `findAll` has no `ORDER BY`. The model returns key order, and its contracts promise only that every row appears once.
- Request bodies are string-valued. Non-string JSON values and JSON `null` are not modelled.
- Express drops the body of a 204 response. `InteressadoController.Remover` states the object the code passes to `res.json`, not what reaches the client.

**Behaviour of the libraries**
- Which statement fails, and with which driver error, is the `fault` parameter, covering lost connections and constraint violations alike. The model states what each handler does for every choice.
- The pool's `query` writes an `undefined` value as SQL NULL. The pool's `execute`, used by the older tree, refuses it before sending. Both are stated in the models (`LegacyInteressadoModel.Bindable`).
- Database.Table.Insert: a failed `INSERT` is taken not to use up a key, so the counter stays where it was. InnoDB does use up an `AUTO_INCREMENT` value on some server-side failures, such as a duplicate key, and after one of those the real next `insertId` is higher than the model's.
- `affectedRows` of an `UPDATE` counts matched rows, as the driver's default found-rows flag makes it.
- `InteressadoModel.Create` and `InteressadoModel.Update` return `findById(...)` without `await`. A failure of that re-read therefore escapes their own `catch`, and the error keeps the message 'Erro ao buscar interessado'. The contracts state this.

**Deliberate choices**
- The doc comments of both `validarCPF` copies call '123.456.789-00' valid. The code rejects it, because its second check digit is 9 (`Cpf.MismatchVector`). The model follows the code.
- `utils.js` repeats `limparNumeros`, `validarCPF`, `validarEmail` and `validarTelefone` character for character from the server. The same members model both copies.

## Findings

`interessadosRoutes.js` takes `query` from the server's database module, where it is the pool's `query`. That call resolves to a pair `[result, fields]`. The server models destructure it (`const [rows] = await db.query(...)`), but the routes use the pair itself as the result. Each row below gives the as-written answer with a lemma showing the discrepancy, and the corrected answer that the route's handler method uses.

| source | as written | input that shows it | evidently intended | confidence | as-written member | corrected member |
|---|---|---|---|---|---|---|
| src/server/routes/interessadosRoutes.js:19-20 | sends `[rows, fields]` | GET /api/interessados on an empty table sends `[[], fields]` | send the rows, `[]` | high; not executed | InteressadosRoutes.ListAsWrittenSendsPair | InteressadosRoutes.Get |
| src/server/routes/interessadosRoutes.js:33-37 | `const [interessado]` is the rows array, which is truthy even when empty | GET /api/interessados/7 with no row 7 answers 200 with `[]` | 404 'Interessado não encontrado' | high; not executed | InteressadosRoutes.FindAsWrittenNeverNotFound | InteressadosRoutes.GetById |
| src/server/routes/interessadosRoutes.js:73 | `result.insertId` of an array is `undefined` | a valid POST answers 201 with `{ message }` and no `id` | 201 with the new key as `id` | high; not executed | InteressadosRoutes.CreateAsWrittenLosesId | InteressadosRoutes.Post |
| src/server/routes/interessadosRoutes.js:110-114 | `result.affectedRows === 0` is never true | a valid PUT /api/interessados/7 with no row 7 answers 200 'Interessado atualizado com sucesso' | 404 'Interessado não encontrado' | high; not executed | InteressadosRoutes.UpdateAsWrittenNeverNotFound | InteressadosRoutes.Put |
| src/server/routes/interessadosRoutes.js:129-133 | `result.affectedRows === 0` is never true | DELETE /api/interessados/7 with no row 7 answers 200 'Interessado removido com sucesso' | 404 'Interessado não encontrado' | high; not executed | InteressadosRoutes.RemoveAsWrittenNeverNotFound | InteressadosRoutes.Delete |
