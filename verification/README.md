# Paokentyn bakery domain in Dafny

A model of the persistence domain of the Paokentyn bakery system, a Java
application that maps nine entities onto a relational database with the
Jakarta Persistence API and guards their fields with Jakarta Bean
Validation. The nine entities are:

- `Padaria`, the bakery;
- `Funcionario`, an employee, and `DadosBancarios`, the employee's bank account;
- `Tarefa`, an employee's task;
- `Pao`, a bread, and `Ingrediente`, an ingredient;
- `Pedido`, an order, and `ItemPedido`, one line of an order;
- `Fornada`, a batch.

The model covers:

- **The two custom constraint validators.** `@SemNumero` rejects text with
  a digit. `@CepPernambuco` accepts postal codes whose first significant
  character is `5`.
- **The constraint set of every entity.** Each entity's `Validate` reports
  a property path exactly when that field's rules fail, and reports nothing
  exactly when the entity is admissible. Concrete lemmas replay the
  validation and persistence tests.
- **`equals` and `hashCode`** in the three styles the classes use:
  null-tolerant id comparison, an unguarded `id.equals`, and `Object`
  identity.
- **The `Funcionario.setDadosBancarios` back-reference** on a heap of two
  reference fields.
- **An abstract database.** It has the entity tables, the foreign keys,
  the join table TB_PAO_INGREDIENTE, the NOT NULL and unique columns, the
  column lengths and the identity counters. `persist` and `merge` validate
  before they flush. `remove` cascades along every `cascade = ALL`
  association, as section 3.2.3 of the Jakarta Persistence specification
  describes, with each collection read off the foreign keys. Orphan
  removal follows section 2.9 of the same specification.
- **The clean-up every database test runs first.** It is a fixed sequence
  of bulk `DELETE FROM` statements. None of them cascades, and each is
  checked against the foreign keys.

Conventions:

- Java `null` is `Option.None`. `Long` and `int` are bounded integers.
- `Double` is `real`. Dates are milliseconds, with the current instant
  passed as the parameter `now`.
- `@CPF` and `@Email` verdicts are an opaque `Library` of accepted strings.
- A `char` is a Unicode scalar value. `@Size` counts what Java's
  `String.length()` counts, UTF-16 code units, so a character above U+FFFF
  counts twice (`JavaLang.Utf16Length`).
- A test may restart the identity counters and then load rows with
  explicit ids. A stored id therefore need not come from its table's
  counter, and an insert whose next id is already stored fails.

## Model

| member | source | states |
|---|---|---|
| SemNumeroValidator.IsValid | src/main/java/ifpe/paokentyn/validation/SemNumeroValidator.java:13-19 | null is accepted; otherwise a value is accepted exactly when it has no ASCII digit or it has a line terminator, which `.*\d.*` cannot cross |
| SemNumeroValidator.SingleLineMeansNoDigit | src/main/java/ifpe/paokentyn/validation/SemNumeroValidator.java:18 | on a value without line terminators the validator accepts exactly the digit-free strings |
| SemNumeroValidator.RejectsNamesWithDigits | src/test/java/ifpe/paokentyn/domain/beanvalidation/IngredientePersistenceTest.java:26-35 | "Farinha Tipo 1" and "Banco 24 Horas" are rejected |
| SemNumeroValidator.AcceptsDigitAfterLineBreak | src/main/java/ifpe/paokentyn/validation/SemNumeroValidator.java:18 | a digit on a second line, as in "Farinha\nTipo 1", passes the validator |
| JavaRegex.ContainsDigitPatternMatches | src/main/java/ifpe/paokentyn/validation/SemNumeroValidator.java:18 | a whole-string match of `.*\d.*` happens exactly when the string holds an ASCII digit and no line terminator |
| JavaRegex.DigitsAndHyphensMatches | src/main/java/ifpe/paokentyn/domain/DadosBancarios.java:33-43 | `[0-9\-]+` matches exactly the non-empty strings made of digits and hyphens |
| CepPernambucoValidator.IsValid | src/main/java/ifpe/paokentyn/validation/CepPernambucoValidator.java:13-24 | null is accepted; otherwise a code is accepted exactly when its first character that is neither a hyphen nor trimmed whitespace is '5' |
| CepPernambucoValidator.FirstVisibleIgnoresHyphens | src/main/java/ifpe/paokentyn/validation/CepPernambucoValidator.java:20-23 | deleting the hyphens and then trimming leaves, as first character, the code's first significant character |
| CepPernambucoValidator.RejectsBlankCodes | src/main/java/ifpe/paokentyn/validation/CepPernambucoValidator.java:20-23 | a non-null code of nothing but hyphens and blanks, the empty code included, is rejected |
| CepPernambucoValidator.AppendKeepsVerdict | src/main/java/ifpe/paokentyn/validation/CepPernambucoValidator.java:23 | once a code has a significant character, appending text changes neither that character nor the verdict |
| CepPernambucoValidator.Examples | src/test/java/ifpe/paokentyn/domain/beanvalidation/PadariaPersistenceTest.java:30-56 | the Recife code 51020-000 is accepted; the São Paulo and Rio codes are rejected |
| CepPernambucoValidator.Verdict | src/main/java/ifpe/paokentyn/validation/CepPernambucoValidator.java:23 | a code starting with a digit is accepted exactly when that digit is '5' |
| JavaLang.Trim | src/main/java/ifpe/paokentyn/validation/CepPernambucoValidator.java:20 | `trim` yields the empty string exactly when every character is at or below U+0020; otherwise the result starts with a visible character |
| JavaLang.TrimBeginsWithFirstVisible | src/main/java/ifpe/paokentyn/validation/CepPernambucoValidator.java:20-23 | the trimmed text is non-empty exactly when a visible character exists, and then starts with the first one |
| JavaLang.TrimEndsVisible | src/main/java/ifpe/paokentyn/validation/CepPernambucoValidator.java:20 | a non-empty trimmed string also ends with a visible character |
| JavaLang.DeleteAll | src/main/java/ifpe/paokentyn/validation/CepPernambucoValidator.java:20 | `replace("-", "")` leaves no hyphen and keeps every other character with its multiplicity |
| JavaLang.DeleteAllConcat | src/main/java/ifpe/paokentyn/validation/CepPernambucoValidator.java:20 | deleting hyphens distributes over concatenation |
| JavaLang.DeleteAllIdempotent | src/main/java/ifpe/paokentyn/validation/CepPernambucoValidator.java:20 | deleting hyphens twice is deleting them once |
| JavaLang.Repeat | src/test/java/ifpe/paokentyn/domain/IngredienteValidationTest.java:37-47 | `repeat(n)` has n times the length, starts with the piece and introduces no new character |
| JavaLang.BmpLength | src/main/java/ifpe/paokentyn/domain/Ingrediente.java:28-32 | Java's `length()` equals the number of characters exactly when every character lies in the Basic Multilingual Plane |
| JavaLang.SupplementaryLength | src/main/java/ifpe/paokentyn/domain/Ingrediente.java:28-32 | a string of characters above U+FFFF has twice as many UTF-16 units as characters |
| JavaLang.SmallLongHashesToItself | src/main/java/ifpe/paokentyn/domain/Ingrediente.java:63-68 | `Long.hashCode` of an id between 0 and 2^31-1 is the id itself |
| BeanValidation.NullOnlyFailsPresence | src/main/java/ifpe/paokentyn/validation/SemNumeroValidator.java:14-16 | null satisfies every constraint except `@NotNull` and `@NotBlank` |
| ConstraintSets.NameHolds | src/main/java/ifpe/paokentyn/domain/Ingrediente.java:28-32 | `@NotBlank @Size(max) @SemNumero` hold together exactly when the name is present, not blank, at most `max` UTF-16 units long and accepted by `@SemNumero` |
| ConstraintSets.NumberLength | src/main/java/ifpe/paokentyn/domain/DadosBancarios.java:33-43 | a number of digits and hyphens is as long in Java as it has characters |
| ConstraintSets.NumberRules | src/main/java/ifpe/paokentyn/domain/DadosBancarios.java:33-43 | a branch or account number is reported exactly when it is missing, blank, too long or not made of digits and hyphens |
| ConstraintSets.TextRules | src/main/java/ifpe/paokentyn/domain/Pao.java:20-23 | `@NotBlank @Size(max)` report a field exactly when it is missing, blank or longer than `max` UTF-16 units |
| ConstraintSets.PresenceRule | src/main/java/ifpe/paokentyn/domain/ItemPedido.java:18-26 | a lone `@NotNull` reports the field exactly when it is null |
| ConstraintSets.BlankIsOnlyFailure | src/test/java/ifpe/paokentyn/domain/IngredienteValidationTest.java:26-35 | a short blank value breaks `@NotBlank` and nothing else, not `@SemNumero` either |
| ConstraintSets.TooLongIsOnlyFailure | src/test/java/ifpe/paokentyn/domain/IngredienteValidationTest.java:37-47 | a visible, digit-free value whose UTF-16 length is over the limit breaks only `@Size` |
| ConstraintSets.PatternIsOnlyFailure | src/test/java/ifpe/paokentyn/domain/DadosBancariosValidationTest.java:29-38 | a visible number within the UTF-16 length limit, with a character other than a digit or hyphen, breaks only `@Pattern` |
| ConstraintSets.CheckIsOnlyFailure | src/main/java/ifpe/paokentyn/domain/Funcionario.java:34-42 | a visible CPF or e-mail the library refuses breaks only `@CPF` or `@Email` |
| ConstraintSets.NullIsOnlyFailure | src/main/java/ifpe/paokentyn/domain/ItemPedido.java:18-26 | a null value breaks only the leading `@NotNull` of its property |
| DadosBancariosEntity.Validate | src/main/java/ifpe/paokentyn/domain/DadosBancarios.java:27-43 | banco, agencia and conta are each reported exactly when their rule set fails; nothing else is reported; the account is valid exactly when all three pass |
| DadosBancariosEntity.SampleIsValid | src/test/java/ifpe/paokentyn/domain/DadosBancariosValidationTest.java:21-27 | the test account is valid with no employee attached |
| DadosBancariosEntity.LettersInAgencia | src/test/java/ifpe/paokentyn/domain/DadosBancariosValidationTest.java:29-38 | branch "00AB" yields exactly one violation, the pattern on agencia |
| DadosBancariosEntity.BlankBanco | src/test/java/ifpe/paokentyn/domain/DadosBancariosValidationTest.java:40-49 | a blank bank name yields exactly one violation, `@NotBlank` on banco |
| DadosBancariosEntity.LetterInConta | src/test/java/ifpe/paokentyn/domain/DadosBancariosValidationTest.java:51-61 | account "123A5-6" yields exactly one violation, the pattern on conta |
| DadosBancariosEntity.DigitInBanco | src/test/java/ifpe/paokentyn/domain/beanvalidation/DadosBancariosPersistenceTest.java:42-51 | a bank name with digits is refused by `@SemNumero` |
| IngredienteEntity.Validate | src/main/java/ifpe/paokentyn/domain/Ingrediente.java:28-32 | only nome is ever reported, and the ingredient is valid exactly when the name is present, not blank, at most 100 UTF-16 units long and accepted by `@SemNumero` |
| IngredienteEntity.SampleIsValid | src/test/java/ifpe/paokentyn/domain/IngredienteValidationTest.java:18-24 | "Farinha de Trigo Premium" is valid |
| IngredienteEntity.BlankNome | src/test/java/ifpe/paokentyn/domain/IngredienteValidationTest.java:26-35 | a blank name yields exactly one violation |
| IngredienteEntity.RepeatedNomeTooLong | src/test/java/ifpe/paokentyn/domain/IngredienteValidationTest.java:37-47 | any visible digit-free piece repeated past 100 characters yields exactly the `@Size` violation |
| IngredienteEntity.SupplementaryNomeTooLong | src/main/java/ifpe/paokentyn/domain/Ingrediente.java:28-32 | sixty characters above U+FFFF, of Java length 120, yield exactly the `@Size` violation |
| IngredienteEntity.OversizedNome | src/test/java/ifpe/paokentyn/domain/IngredienteValidationTest.java:37-47 | `"Farinha ".repeat(20)` yields exactly the `@Size` violation |
| IngredienteEntity.DigitInNome | src/test/java/ifpe/paokentyn/domain/beanvalidation/IngredientePersistenceTest.java:26-35 | "Farinha Tipo 1" is refused by `@SemNumero` |
| PaoEntity.Validate | src/main/java/ifpe/paokentyn/domain/Pao.java:20-28 | the name is reported exactly when missing, blank or over 100 UTF-16 units; the price exactly when missing or not strictly positive; valid exactly when both pass |
| PaoEntity.SampleIsValid | src/test/java/ifpe/paokentyn/domain/PaoValidationTest.java:17-23 | the test bread is valid |
| PaoEntity.NonPositivePreco | src/main/java/ifpe/paokentyn/domain/Pao.java:25-28 | a present price at or below zero breaks `@Positive` and nothing else on preco |
| PaoEntity.NonPositivePrecoIsOnlyFailure | src/main/java/ifpe/paokentyn/domain/Pao.java:20-28 | with a valid name, any price at or below zero yields exactly one violation, `@Positive` |
| PaoEntity.PriceTests | src/test/java/ifpe/paokentyn/domain/PaoValidationTest.java:25-47 | prices -5.00 and 0.00 each yield exactly the `@Positive` violation |
| PaoEntity.EmptyNomePao | src/test/java/ifpe/paokentyn/domain/PaoValidationTest.java:49-57 | an empty name yields exactly the `@NotBlank` violation |
| PaoEntity.DigitsInNomePaoAccepted | src/test/java/ifpe/paokentyn/domain/beanvalidation/PaoPersistenceTest.java:27-36 | "Pao 12 Grãos" with a positive price is valid: no digit rule is declared on nomePao |
| PadariaEntity.Validate | src/main/java/ifpe/paokentyn/domain/Padaria.java:14-26 | nome is reported exactly when missing, blank or over 255 UTF-16 units; cep exactly when present with a `length()` other than 9; cnpj exactly when missing, blank or of `length()` other than 14 |
| PadariaEntity.SampleIsValid | src/test/java/ifpe/paokentyn/domain/beanvalidation/PadariaPersistenceTest.java:10-16 | the Recife bakery is valid |
| PadariaEntity.OutOfStateCepAccepted | src/test/java/ifpe/paokentyn/domain/beanvalidation/PadariaPersistenceTest.java:30-56 | São Paulo and Rio codes pass the bakery's validation although `@CepPernambuco` would refuse them |
| PadariaEntity.AnyCepOfLengthNine | src/main/java/ifpe/paokentyn/domain/Padaria.java:19-21 | any postal code of `length()` 9 is valid, whatever its region or its characters |
| PadariaEntity.CnpjCheckDigitsIgnored | src/test/java/ifpe/paokentyn/domain/beanvalidation/PadariaPersistenceTest.java:58-67 | any visible CNPJ of `length()` 14 is valid; no check digit is computed |
| PadariaEntity.TestCnpjAccepted | src/test/java/ifpe/paokentyn/domain/beanvalidation/PadariaPersistenceTest.java:58-67 | the test's "11122233300099", with wrong check digits, is valid |
| PadariaEntity.CepOfWrongLength | src/main/java/ifpe/paokentyn/domain/Padaria.java:19-21 | a present code whose `length()` is not 9 breaks exactly `@Size(9, 9)` |
| PadariaEntity.UnhyphenatedCepRejected | src/test/java/ifpe/paokentyn/domain/PadariaTest.java:72-92 | the 8-character code "55000000" yields exactly the `@Size` violation |
| PedidoEntity.Validate | src/main/java/ifpe/paokentyn/domain/Pedido.java:16-25 | the total is reported exactly when missing or negative, the date exactly when missing or after now |
| PedidoEntity.SampleIsValid | src/test/java/ifpe/paokentyn/domain/beanvalidation/PedidoPersistenceTest.java:12-17 | an order of 150.50 placed now is valid |
| PedidoEntity.NegativeValorTotal | src/main/java/ifpe/paokentyn/domain/Pedido.java:16-19 | a negative total breaks `@PositiveOrZero` and nothing else on valorTotal |
| PedidoEntity.FutureDataPedido | src/main/java/ifpe/paokentyn/domain/Pedido.java:21-25 | a date after now breaks `@PastOrPresent` and nothing else on dataPedido |
| PedidoEntity.NegativeTotalRejected | src/test/java/ifpe/paokentyn/domain/beanvalidation/PedidoPersistenceTest.java:28-37 | a total of -10 yields exactly one violation |
| PedidoEntity.LaterDateRejected | src/test/java/ifpe/paokentyn/domain/beanvalidation/PedidoPersistenceTest.java:39-54 | any later date, tomorrow included, yields exactly one violation |
| FornadaEntity.Validate | src/main/java/ifpe/paokentyn/domain/Fornada.java:15-29 | padaria and horaInicio are reported exactly when null, dataFornada exactly when missing or not strictly before now |
| FornadaEntity.SampleIsValid | src/test/java/ifpe/paokentyn/domain/beanvalidation/FornadaPersistenceTest.java:13-30 | a batch baked yesterday by a stored bakery is valid |
| FornadaEntity.DataFornadaNotPast | src/main/java/ifpe/paokentyn/domain/Fornada.java:20-24 | a date at or after now breaks `@Past` and nothing else on dataFornada |
| FornadaEntity.LaterDateRejected | src/test/java/ifpe/paokentyn/domain/beanvalidation/FornadaPersistenceTest.java:44-57 | any date from now on yields exactly one violation |
| FornadaEntity.MissingPadariaRejected | src/test/java/ifpe/paokentyn/domain/beanvalidation/FornadaPersistenceTest.java:59-68 | a batch without bakery yields exactly the `@NotNull` violation on padaria |
| ItemPedidoEntity.Validate | src/main/java/ifpe/paokentyn/domain/ItemPedido.java:13-30 | quantidade is reported exactly when missing or below 1, pedido and pao exactly when null; fornada is optional |
| ItemPedidoEntity.SampleIsValid | src/test/java/ifpe/paokentyn/domain/beanvalidation/ItemPedidoPersistenceTest.java:13-30 | five of a stored bread on a stored order is valid |
| ItemPedidoEntity.QuantidadeBelowOne | src/main/java/ifpe/paokentyn/domain/ItemPedido.java:13-16 | a quantity below 1 breaks `@Min(1)` and nothing else on quantidade |
| ItemPedidoEntity.SmallQuantidadeRejected | src/test/java/ifpe/paokentyn/domain/beanvalidation/ItemPedidoPersistenceTest.java:43-53 | any quantity below 1, 0 and -10 included, yields exactly one violation |
| ItemPedidoEntity.MissingPaoRejected | src/test/java/ifpe/paokentyn/domain/beanvalidation/ItemPedidoPersistenceTest.java:55-64 | an item without bread yields exactly the `@NotNull` violation on pao |
| ItemPedidoEntity.MissingPedidoRejected | src/test/java/ifpe/paokentyn/domain/beanvalidation/ItemPedidoPersistenceTest.java:66-75 | an item without order yields exactly the `@NotNull` violation on pedido |
| FuncionarioEntity.NamingViolations | src/main/java/ifpe/paokentyn/domain/Funcionario.java:29-47 | nome and cargo are reported exactly when missing, blank or over 255 and 50 UTF-16 units |
| FuncionarioEntity.ContactViolations | src/main/java/ifpe/paokentyn/domain/Funcionario.java:34-42 | cpf and email are reported exactly when missing, blank or refused by the library check |
| FuncionarioEntity.EmploymentViolations | src/main/java/ifpe/paokentyn/domain/Funcionario.java:24-56 | padaria is reported exactly when null, the hiring date exactly when present and not before now, the salary exactly when present and below 1000.00 |
| FuncionarioEntity.Validate | src/main/java/ifpe/paokentyn/domain/Funcionario.java:24-56 | an employee is valid exactly when every field rule holds |
| FuncionarioEntity.SampleIsValid | src/test/java/ifpe/paokentyn/domain/beanvalidation/FuncionarioPersistenceTest.java:12-36 | the test employee is valid when the library accepts its CPF and e-mail |
| FuncionarioEntity.LowSalario | src/main/java/ifpe/paokentyn/domain/Funcionario.java:54-56 | a salary below 1000.00 breaks `@DecimalMin` and nothing else on salario |
| FuncionarioEntity.LateDataContratacao | src/main/java/ifpe/paokentyn/domain/Funcionario.java:49-52 | a hiring date at or after now breaks `@Past` and nothing else |
| FuncionarioEntity.LowSalarioRejected | src/test/java/ifpe/paokentyn/domain/beanvalidation/FuncionarioPersistenceTest.java:72-81 | a salary of 900.00 yields exactly one violation |
| FuncionarioEntity.LateHireRejected | src/test/java/ifpe/paokentyn/domain/beanvalidation/FuncionarioPersistenceTest.java:83-95 | any hiring date from now on yields exactly one violation |
| FuncionarioEntity.MissingPadariaRejected | src/test/java/ifpe/paokentyn/domain/beanvalidation/FuncionarioPersistenceTest.java:97-106 | an employee without bakery yields exactly the `@NotNull` violation |
| FuncionarioEntity.RejectedCpf | src/test/java/ifpe/paokentyn/domain/beanvalidation/FuncionarioPersistenceTest.java:50-59 | a visible CPF the library refuses breaks only `@CPF` |
| FuncionarioEntity.RejectedEmail | src/test/java/ifpe/paokentyn/domain/beanvalidation/FuncionarioPersistenceTest.java:61-70 | a visible e-mail the library refuses breaks only `@Email` |
| FuncionarioEntity.NomeWithDigitAccepted | src/test/java/ifpe/paokentyn/domain/beanvalidation/FuncionarioPersistenceTest.java:108-117 | a name with a digit is valid: no digit rule is declared on nome |
| TarefaEntity.AssignmentViolations | src/main/java/ifpe/paokentyn/domain/Tarefa.java:16-24 | funcionario is reported exactly when null, descricao exactly when missing, blank or over 500 UTF-16 units |
| TarefaEntity.ScheduleViolations | src/main/java/ifpe/paokentyn/domain/Tarefa.java:26-43 | dataInicio and concluida are reported exactly when null, dataPrevisao exactly when missing or not after now |
| TarefaEntity.Validate | src/main/java/ifpe/paokentyn/domain/Tarefa.java:16-43 | a task is valid exactly when every field rule holds |
| TarefaEntity.SampleIsValid | src/test/java/ifpe/paokentyn/domain/TarefaValidationTest.java:31-37 | an open task started now and due tomorrow is valid |
| TarefaEntity.DatesAndFlagUnrelated | src/main/java/ifpe/paokentyn/domain/Tarefa.java:26-43 | no rule relates the dates or the flag to one another |
| TarefaEntity.AnyDataInicioAccepted | src/test/java/ifpe/paokentyn/domain/TarefaValidationTest.java:49-60 | any start date, 2099 included, is valid: dataInicio has only `@NotNull` |
| TarefaEntity.DataPrevisaoNotFuture | src/main/java/ifpe/paokentyn/domain/Tarefa.java:35-39 | a due date at or before now breaks `@Future` and nothing else |
| TarefaEntity.EarlierPrevisaoRejected | src/test/java/ifpe/paokentyn/domain/TarefaValidationTest.java:62-73 | any due date not after now yields exactly one violation |
| TarefaEntity.BlankDescricaoRejected | src/test/java/ifpe/paokentyn/domain/beanvalidation/TarefaPersistenceTest.java:58-67 | any blank description yields exactly the `@NotBlank` violation |
| TarefaEntity.BlankDescricaoExamples | src/test/java/ifpe/paokentyn/domain/TarefaValidationTest.java:39-47 | "   " and "" each yield exactly one violation |
| TarefaEntity.MissingFuncionarioRejected | src/test/java/ifpe/paokentyn/domain/TarefaValidationTest.java:75-84 | a task without employee yields exactly one violation |
| Identity.IdsMatch | src/main/java/ifpe/paokentyn/domain/Ingrediente.java:70-79 | the null-tolerant id test holds exactly when both ids are null or both equal |
| Identity.Equals | src/main/java/ifpe/paokentyn/domain/Pao.java:64-71 | throws exactly for an unguarded class with a null id compared to another object of its class; otherwise same reference, or same class and id, or same address for `ItemPedido` |
| Identity.IdHash | src/main/java/ifpe/paokentyn/domain/Ingrediente.java:63-68 | a null id hashes to 0, an id between 0 and 2^31-1 to itself |
| Identity.HashCode | src/main/java/ifpe/paokentyn/domain/Pao.java:73-76 | throws exactly for `Pao` and `Padaria` with a null id; otherwise the id hash, or the identity hash for `ItemPedido` |
| Identity.EqualObjectsHashAlike | src/main/java/ifpe/paokentyn/domain/Padaria.java:49-61 | objects that `equals` reports equal have equal hashes whenever both calls return |
| Identity.EqualsReflexive | src/main/java/ifpe/paokentyn/domain/Pao.java:64-71 | every object equals itself without throwing |
| Identity.NothingEqualsNull | src/main/java/ifpe/paokentyn/domain/Ingrediente.java:70-79 | no object equals null, and none throws |
| Identity.EqualsSymmetric | src/main/java/ifpe/paokentyn/domain/Funcionario.java:146-155 | where both calls return, `equals` is symmetric |
| Identity.EqualsTransitive | src/main/java/ifpe/paokentyn/domain/Tarefa.java:68-77 | where the calls return, `equals` is transitive |
| Identity.UnsavedObjectsEqual | src/main/java/ifpe/paokentyn/domain/Pedido.java:41-57 | two distinct unsaved objects of a null-tolerant class are equal and hash to 0 |
| Identity.UnsavedUnguardedThrows | src/main/java/ifpe/paokentyn/domain/Padaria.java:49-56 | an unsaved `Pao` or `Padaria` throws when compared to a saved one, while the reverse call answers false |
| Identity.ItemsWithSameIdDiffer | src/main/java/ifpe/paokentyn/domain/ItemPedido.java:8-43 | two `ItemPedido` objects at different addresses are unequal whatever their ids |
| Identity.DifferentKindsDiffer | src/main/java/ifpe/paokentyn/domain/Fornada.java:55-64 | objects of different classes are never equal |
| BankAccountLink.SetDadosBancarios | src/main/java/ifpe/paokentyn/domain/Funcionario.java:124-129 | the owning field becomes the argument, a non-null account names the employee back, and every other field is unchanged |
| BankAccountLink.SetKeepsClosed | src/main/java/ifpe/paokentyn/domain/Funcionario.java:124-129 | the setter keeps every reference inside the heap |
| BankAccountLink.FirstAccountMirrored | src/main/java/ifpe/paokentyn/domain/Funcionario.java:124-129 | giving a free account to an employee without one keeps both sides mirrored |
| BankAccountLink.ReplacedAccountKeepsStaleHolder | src/main/java/ifpe/paokentyn/domain/Funcionario.java:124-129 | replacing an account leaves the old account naming the employee, so the sides stop mirroring |
| BankAccountLink.ClearingTouchesOnlyOwner | src/main/java/ifpe/paokentyn/domain/Funcionario.java:124-129 | `setDadosBancarios(null)` clears only the owning field |
| BankAccountLink.StolenAccountBreaksMirror | src/main/java/ifpe/paokentyn/domain/Funcionario.java:124-129 | taking another employee's account leaves that employee pointing at it |
| Schema.WithId | src/main/java/ifpe/paokentyn/domain/Ingrediente.java:23-26 | setting the id keeps the table, the foreign keys and the unique value |
| Schema.WithIdRoundTrip | src/main/java/ifpe/paokentyn/domain/Ingrediente.java:23-26 | restoring the old id restores the entity |
| Schema.Parents | src/main/java/ifpe/paokentyn/domain/Padaria.java:28-32 | every cascading parent of a row ranks strictly above it |
| Schema.Owned | src/main/java/ifpe/paokentyn/domain/Funcionario.java:61-63 | only an employee owns a row, and that row is a bank account |
| Schema.ValidRowsFit | src/main/java/ifpe/paokentyn/domain/Funcionario.java:34-42 | a valid row fits every VARCHAR column as soon as the employee's CPF and e-mail do: every other column `length` is matched by an equal `@Size` |
| Schema.ValidRowsFillNotNull | src/main/java/ifpe/paokentyn/domain/Funcionario.java:24-47 | a row that passes validation fills every `nullable = false` column, foreign keys and value columns alike |
| Store.Empty | src/test/java/ifpe/paokentyn/domain/GenericTest.java:58-66 | the empty database with counters at zero is consistent |
| Store.DanglingOf | src/main/java/ifpe/paokentyn/domain/ItemPedido.java:18-30 | exactly the foreign keys of the row that name no stored row |
| Store.Clashing | src/main/java/ifpe/paokentyn/domain/Ingrediente.java:28-32 | exactly the stored rows holding the row's unique value |
| Store.ClashesOf | src/main/java/ifpe/paokentyn/domain/Ingrediente.java:28-32 | exactly the other stored rows holding the row's unique value |
| Store.PutKeepsConsistent | src/main/java/ifpe/paokentyn/domain/Ingrediente.java:28-32 | writing a row that resolves its keys and clashes with nothing keeps the database consistent |
| Store.Insert | src/main/java/ifpe/paokentyn/domain/Ingrediente.java:23-26 | an insert succeeds exactly when the entity is new, every NOT NULL column is filled, its keys resolve, no unique value clashes, ids remain, the next id is not already a stored key and every text fits its column; it then stores the row under that id. When only the next id is taken, the insert fails with a duplicate primary key |
| Store.InsertKeepsConsistent | src/main/java/ifpe/paokentyn/domain/Ingrediente.java:23-32 | a successful insert keeps the database consistent |
| Store.Persist | src/test/java/ifpe/paokentyn/domain/beanvalidation/IngredientePersistenceTest.java:26-35 | an invalid entity is rejected with its violations before any SQL; a valid one is inserted |
| Store.PersistTooLongOnlyForContacts | src/main/java/ifpe/paokentyn/domain/Funcionario.java:34-42 | a persist the database refuses as too long is an employee whose CPF or e-mail outgrows `TXT_CPF` or `TXT_EMAIL` |
| Store.LongEmailRefused | src/main/java/ifpe/paokentyn/domain/Funcionario.java:39-42 | a valid employee whose e-mail is longer than 150 UTF-16 units passes validation and is refused by the database |
| Store.PersistNeverHitsNullColumn | src/main/java/ifpe/paokentyn/domain/ItemPedido.java:13-26 | a persist is never refused by a NOT NULL column |
| Store.UnnamedPaoRefused | src/main/java/ifpe/paokentyn/domain/Pao.java:20-28 | the database refuses a new bread whose `TXT_NOME_PAO` or `NUM_PRECO` is null, with a NOT NULL error |
| Store.PersistKeepsConsistent | src/test/java/ifpe/paokentyn/domain/PedidoTest.java:76-90 | a successful persist keeps the database consistent |
| Store.PersistStores | src/test/java/ifpe/paokentyn/domain/PadariaTest.java:72-92 | a successful persist stores the entity under its table's next id and leaves every other row alone |
| Store.DuplicateRejected | src/test/java/ifpe/paokentyn/domain/beanvalidation/IngredientePersistenceTest.java:37-52 | inserting a second row with a stored unique value fails with a duplicate-key error |
| Store.Update | src/main/java/ifpe/paokentyn/domain/Ingrediente.java:28-32 | an update succeeds exactly when every NOT NULL column is filled, the keys resolve, no unique value clashes and every text fits its column, and keeps the id |
| Store.UpdateKeepsConsistent | src/main/java/ifpe/paokentyn/domain/Ingrediente.java:28-32 | a successful update keeps the database consistent and the row reads back as written |
| Store.Merge | src/test/java/ifpe/paokentyn/domain/beanvalidation/IngredientePersistenceTest.java:54-67 | an invalid entity is rejected with its violations; a stored one is updated, any other inserted |
| Store.ManagedFlushValidates | src/test/java/ifpe/paokentyn/domain/IngredienteTest.java:82-98 | flushing a modified managed entity validates it first and then updates its row |
| Store.WithIdKeepsViolations | src/test/java/ifpe/paokentyn/domain/beanvalidation/DadosBancariosPersistenceTest.java:53-66 | validation never depends on the id |
| Store.MergeKeepsConsistent | src/test/java/ifpe/paokentyn/domain/beanvalidation/DadosBancariosPersistenceTest.java:53-66 | a successful merge keeps the database consistent |
| Store.InverseSideMirrorsOwner | src/main/java/ifpe/paokentyn/domain/Ingrediente.java:34-35 | a bread lists an ingredient exactly when the ingredient lists the bread |
| Store.AddIngrediente | src/test/java/ifpe/paokentyn/domain/PaoTest.java:197-215 | adding succeeds exactly when both rows are stored, and then adds exactly one join row |
| Store.AddedLinkListed | src/main/java/ifpe/paokentyn/domain/Pao.java:38-43 | one join row more lists one ingredient more under its own bread only |
| Store.AddIngredienteGrowsByOne | src/test/java/ifpe/paokentyn/domain/PaoTest.java:197-215 | adding a new ingredient grows that bread's list by exactly one and leaves other breads alone |
| Cascade.ChildrenOf | src/main/java/ifpe/paokentyn/domain/Padaria.java:28-32 | exactly the stored rows naming the row as cascading parent, plus its owned account |
| Cascade.Closure | src/main/java/ifpe/paokentyn/domain/Funcionario.java:58-63 | the closure contains the root and only stored dependent rows of lower rank |
| Cascade.ClosureClosed | src/main/java/ifpe/paokentyn/domain/Padaria.java:28-32 | the closure holds every cascade target of its rows |
| Cascade.ClosureLeast | src/main/java/ifpe/paokentyn/domain/Padaria.java:28-32 | the closure is contained in every cascade-closed set holding the root |
| Cascade.ClosureOrigin | src/main/java/ifpe/paokentyn/domain/Padaria.java:28-32 | every row of the closure but the root is a cascade target of another row of it |
| Cascade.Blockers | src/main/java/ifpe/paokentyn/domain/ItemPedido.java:18-30 | exactly the rows outside the set still pointing into it and the breads outside it listing a removed ingredient |
| Cascade.Remove | src/main/java/ifpe/paokentyn/domain/Pao.java:38-43 | exactly the rows of the set go, with the join rows of removed breads |
| Cascade.RemoveKeepsConsistent | src/main/java/ifpe/paokentyn/domain/ItemPedido.java:18-30 | removing rows nothing else points at keeps the database consistent |
| Cascade.Delete | src/test/java/ifpe/paokentyn/domain/IngredienteTest.java:121-137 | a removal succeeds exactly when the row is stored and nothing outside its closure points into it, and then removes the closure |
| Cascade.DeleteKeepsConsistent | src/test/java/ifpe/paokentyn/domain/IngredienteTest.java:121-137 | a successful removal keeps the database consistent |
| Cascade.AccountHolder | src/main/java/ifpe/paokentyn/domain/Funcionario.java:61-63 | a bank account is reached only from the employee holding it |
| Cascade.OneHolderPerAccount | src/main/java/ifpe/paokentyn/domain/Funcionario.java:61-63 | the unique ID_DADOS_BANCARIOS column gives an account at most one holder |
| Cascade.ReferrerInClosure | src/main/java/ifpe/paokentyn/domain/Padaria.java:28-32 | from an unpinned root, every row pointing into the closure is in it |
| Cascade.PinnedBlocks | src/main/java/ifpe/paokentyn/domain/Ingrediente.java:34-35 | an ingredient a bread lists, or an account an employee holds, cannot be removed |
| Cascade.UnpinnedUnblocked | src/main/java/ifpe/paokentyn/domain/Padaria.java:28-32 | nothing blocks the removal of an unpinned root |
| Cascade.DeleteSucceedsUnlessPinned | src/test/java/ifpe/paokentyn/domain/IngredienteTest.java:121-137 | removing a stored row fails exactly when it is pinned |
| Cascade.DeleteRemovesClosure | src/main/java/ifpe/paokentyn/domain/Padaria.java:28-32 | removing an unpinned row deletes its closure and leaves every other row as it was |
| Cascade.ItemGoesWithAnyParent | src/test/java/ifpe/paokentyn/domain/PaoTest.java:240-254 | removing an item's order, bread or batch deletes the item |
| Cascade.DeletePaoKeepsIngredientes | src/test/java/ifpe/paokentyn/domain/PaoTest.java:217-238 | removing a bread deletes its items and join rows, keeps every ingredient and leaves other breads' lists unchanged |
| Cascade.DeletePadariaCascades | src/main/java/ifpe/paokentyn/domain/Padaria.java:28-32 | removing a bakery deletes its employees and batches and, transitively, their tasks, accounts and items |
| Cascade.DeleteFuncionarioCascades | src/main/java/ifpe/paokentyn/domain/Funcionario.java:58-63 | removing an employee deletes its tasks and its bank account |
| Ownership.RemoveFromCollection | src/main/java/ifpe/paokentyn/domain/Pedido.java:27-28 | taking a child out of its parent's collection is a removal of the child; anything else changes nothing |
| Ownership.OrphanRemoved | src/main/java/ifpe/paokentyn/domain/Fornada.java:31-32 | the orphan goes, its parent and its siblings stay, and the database stays consistent |
| Ownership.DropAccount | src/main/java/ifpe/paokentyn/domain/Funcionario.java:61-63 | clearing the account validates the cleared employee first, then updates and deletes the old account |
| Ownership.ClearingFrees | src/main/java/ifpe/paokentyn/domain/Funcionario.java:61-63 | the update clearing the account column succeeds and leaves the account held by nobody |
| Ownership.FreedAccountDeleted | src/main/java/ifpe/paokentyn/domain/Funcionario.java:61-63 | an account nothing holds can be deleted, keeping the database consistent |
| Ownership.ReleaseHeldAccount | src/main/java/ifpe/paokentyn/domain/Funcionario.java:61-63 | releasing a held account is the clearing update followed by the account's removal |
| Ownership.ReleaseAccountSucceeds | src/main/java/ifpe/paokentyn/domain/Funcionario.java:61-63 | releasing the account always succeeds and keeps the database consistent |
| Ownership.HeldAccountRemoved | src/main/java/ifpe/paokentyn/domain/Funcionario.java:61-63 | a held account is removed while the employee stays, cleared |
| Ownership.ReleaseAccountRemovesAccount | src/main/java/ifpe/paokentyn/domain/Funcionario.java:61-63 | afterwards the employee row is the cleared one and no owned account remains |
| Ownership.PersistCascade | src/main/java/ifpe/paokentyn/domain/Funcionario.java:61-63 | an invalid child makes the cascaded persist fail before anything is written |
| Ownership.PersistCascadeStoresBoth | src/test/java/ifpe/paokentyn/domain/FuncionarioTest.java:87-120 | a successful cascaded persist gives child and parent new ids, stores both and keeps the database consistent |
| Ownership.InvalidParentStoresNothing | src/main/java/ifpe/paokentyn/domain/Funcionario.java:61-63 | a parent the validator refuses whatever id the child gets makes the whole persist fail |
| Ownership.HolderValidatedAsEmployee | src/main/java/ifpe/paokentyn/domain/DadosBancarios.java:45-46 | holding an account changes nothing in the employee's validation |
| Ownership.InvalidHolderStoresNothing | src/test/java/ifpe/paokentyn/domain/FuncionarioTest.java:87-120 | an employee the validator refuses is not stored, and nor is the account |
| Wipe.WipeTable | src/test/java/ifpe/paokentyn/domain/GenericTest.java:45-54 | a bulk delete empties exactly its table and leaves the other rows and the counters alone |
| Wipe.WipeKeepsConsistent | src/test/java/ifpe/paokentyn/domain/GenericTest.java:45-54 | a bulk delete that passes the foreign-key checks keeps the database consistent |
| Wipe.RunWipe | src/test/java/ifpe/paokentyn/domain/GenericTest.java:43-75 | a clean-up that succeeds empties exactly the listed tables, keeps every row of the others unchanged and keeps the counters |
| Wipe.RunWipeKeepsConsistent | src/test/java/ifpe/paokentyn/domain/GenericTest.java:43-75 | a clean-up that succeeds keeps the database consistent |
| Wipe.SafeOnceReferrersGone | src/test/java/ifpe/paokentyn/domain/GenericTest.java:44-54 | with the referring tables empty, a bulk delete passes the foreign-key checks |
| Wipe.ReadyIsSafe | src/test/java/ifpe/paokentyn/domain/GenericTest.java:44-54 | each statement of the clean-up finds its referring tables emptied by earlier ones |
| Wipe.SucceedsFrom | src/test/java/ifpe/paokentyn/domain/GenericTest.java:45-54 | from any point of the order, the rest of the clean-up succeeds |
| Wipe.WipeOrderSucceeds | src/test/java/ifpe/paokentyn/domain/GenericTest.java:43-66 | the clean-up succeeds whatever the tables hold and leaves the empty database |
| Wipe.PadariaBeforeFuncionarioFails | src/test/java/ifpe/paokentyn/domain/GenericTest.java:44-54 | deleting bakeries while an employee is left fails the foreign key, so the order matters |

## Left out

- Bean Validation's `@CPF` and `@Email` are library validators. Their verdicts are the sets `Library.cpfs` and `Library.emails`, with no algorithm.
- `Double` is modelled as an exact `real`, so rounding is not modelled. `Date` is milliseconds against a `now` parameter, so time zones and the `@Temporal` precision are not modelled.
- Fetch types, lazy loading and the `@Lob` image of `Pao` are left out. They decide when data is loaded.
- The model has no persistence context. It works on the database rows and assumes that every `mappedBy` collection in memory lists exactly the rows whose foreign key names its owner, and that no managed entity cascades a persist to a removed one.
- Cascade.Delete follows the foreign keys, where JPA follows the collections loaded in memory. An item whose order was set but that was never added to an already loaded `pedido.itens` goes with the order in the model, while the real flush fails on `ID_PEDIDO`. An account removed while a managed employee still holds it is kept by that employee's persist cascade (section 3.2.2 of the Jakarta Persistence specification); the model reports `StillReferenced`.
- Ownership.RemoveFromCollection rests on the same assumption: the child is the one the collection holds according to the foreign keys.
- Store.Persist: an entity that already has an id is refused as `Detached` after validation. Hibernate refuses a detached entity at `persist` before validating it, and ignores a `persist` of an entity it already manages; without a persistence context the model cannot tell the two apart.
- The JPQL and Criteria query tests are left out, and so is DbUnit dataset loading. The model starts from any consistent database instead.
- The join table is a set of pairs. A bread listing one ingredient twice is therefore not modelled.
- Removing an ingredient that a bread still lists is refused by the join table's foreign key. Hibernate would not delete the join rows from the inverse `Ingrediente.paes` side. Whether `IngredienteTest` removes such an ingredient depends on its dataset, which is not part of this model.
- Wipe.CleanUp carries no contract of its own. `WipeOrderSucceeds` states its result, and the identity restarts are modelled as the empty database.
- Ownership.ReleaseAccount carries no contract of its own. `ReleaseAccountSucceeds`, `HeldAccountRemoved` and `ReleaseAccountRemovesAccount` state its result.
- Ownership.PersistWithAccount carries no contract of its own. `InvalidHolderStoresNothing` and `PersistCascadeStoresBoth` state its result.
- JavaLang.LongHashCode carries no contract of its own. `SmallLongHashesToItself` states it for the ids an identity column hands out.
- The `@CepPernambuco` annotation is declared, and its message says that a bakery must lie in Pernambuco, but no field of `Padaria` carries it. The project's documentation also describes out-of-state bakeries as refused. The model follows the code: the bakery's postal code is only checked for length.
- Some tests expect an outcome that the declared annotations do not produce. The model follows the annotations in each case:
  - `PaoPersistenceTest` expects "Pao 12 Grãos" to be refused.
  - `FuncionarioPersistenceTest` expects a name with a digit to be refused.
  - `PadariaPersistenceTest` expects out-of-state postal codes to be refused.
  - `PadariaPersistenceTest` expects the CNPJ "11122233300099", whose check digits are wrong, to be refused.
  - `PadariaTest` persists the 8-character code "55000000".
  - `TarefaValidationTest` expects a start date in 2099 to be refused.
  - `FuncionarioTest` persists an employee without CPF and e-mail.
- The `Padaria`, `Pedido`, `Fornada`, `ItemPedido` and `Funcionario` validation tests are commented out. The persistence tests stand in for them.
- `@SemNumero` is modelled as written: `String.matches(".*\\d.*")` does not cross a line terminator, so a digit after a line break passes.
- Store.Insert: a refused INSERT leaves the identity counter where it was. The database consumes the value it drew even when the row is refused, so a retry would draw the next id. The tests do not retry.
- Running out of identity values, detached entities and the database's own NOT NULL errors appear only as failure outcomes. Validation always catches the null columns first.
