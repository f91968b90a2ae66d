# eazepay core, modelled in Dafny

This project models the self-contained decision logic of the eazepay payment platform and proves properties of it.

- **Python biometric service.**
  - The processor: minutiae extraction capped at 20 points, the fixed 40-slot fingerprint template, histogram face features, the quality scores, and the cosine and correlation comparisons clamped to [0, 1].
  - The template store: upsert keyed on (user, type), fetch of active rows only, deactivation.
  - The HTTP handlers: strict verification thresholds, the not-enrolled case and the mapping of exceptions to status codes.
- **Other biometric matchers.** The biometric payment service (best match and authorisation) and the second biometric service's matcher (quality gate, minutiae and ridge comparison).
- **Cards, wallets and ledgers.**
  - Virtual cards: Luhn check digits, debits and declines, top-ups, currency conversion, masking.
  - The wallet and the agent float, with their transaction logs and agent statistics. A debit that would take a balance below zero is refused; credits are not checked, so a negative credit can (see the CreditWallet and CreditFloat lines).
  - The ledger hash chain and its Merkle root.
- **IoT service.** The input validator and its sanitisers, MQTT topic matching and dispatch, the bounded telemetry and location buffers with device health, and the nearby-agent query.
- **Shared and identity code.** Deny-overrides permission evaluation, PII masking and redaction, the shared sanitising middleware, migration names, the session/OTP manager over Redis, and the agent service's point encoding and updates.
- **Payments, portal and mobile.** The M-Pesa phone, timestamp and result helpers, the agent portal's circuit breaker, the rule-based fraud detector and credit-risk scorer, and the mobile app's offline retry queue.

Each source file is one Dafny module; `common.dfy` and `json.dfy` hold the JavaScript string and value semantics the TypeScript modules share. What the code gets from outside becomes a parameter of the model:
- clocks, random suffixes and generated ids;
- sha256, the template cipher, base64;
- the square root and the haversine distance;
- OpenCV's measurements of an image;
- the outcome of a network call, and the database's generated values.

Stateful objects are classes whose maps and sequences stand in for their fields, for database tables and for Redis:
- the template store, card store, wallet ledger and agent book;
- the MQTT broker, telemetry processor and location tracker;
- the circuit breaker, the session manager and the offline queue.

Monetary amounts are integers in minor units. The fraud risk is in hundredths.

## Model

| member | source | states |
|---|---|---|
| Permissions.GlobWithoutStarIsEquality | services/identity-service/src/utils/security.ts:158-163 | a wildcard pattern with no `*` matches exactly the permission spelled the same way |
| Permissions.GlobMatch | services/identity-service/src/utils/security.ts:158-163 | the anchored wildcard match (no contract of its own); its properties are the rows GlobWithoutStarIsEquality, StarTakesAnyLine, InfixWildcard, StarAlone and GlobSuffixNeeded |
| Permissions.StarTakesAnyLine | services/identity-service/src/utils/security.ts:160-161 | each `*` (rewritten to `.*`) stands for any run of characters without a line terminator |
| Permissions.InfixWildcard | services/identity-service/src/utils/security.ts:157-163 | the pattern `a*b` accepts `a`, any one-line run, then `b` (the "FIN-*-VIEW" shape) |
| Permissions.StarAlone | services/identity-service/src/utils/security.ts:160-161 | a lone `*` matches exactly the strings without a line terminator |
| Permissions.DenyOverrides | services/identity-service/src/utils/security.ts:144-150 | a DENY policy naming the permission refuses it whatever the user holds |
| Permissions.EvaluatePermission | services/identity-service/src/utils/security.ts:139-177 | deny, exact grant, wildcard grant, policy allow, default deny (no contract of its own); its properties are the rows DenyOverrides, GrantedIff, CatchAllGrants, DefaultDeny and MorePermissionsGrantMore |
| Permissions.GrantedIff | services/identity-service/src/utils/security.ts:139-177 | without a deny, access is granted iff the permission is held, a held wildcard matches it, or an ALLOW policy names it |
| Permissions.CatchAllGrants | services/identity-service/src/utils/security.ts:157-166 | holding `*` grants every one-line permission no policy denies |
| Permissions.DefaultDeny | services/identity-service/src/utils/security.ts:175-177 | with no permissions and no policies nothing is granted |
| Permissions.MorePermissionsGrantMore | services/identity-service/src/utils/security.ts:152-166 | adding held permissions never takes access away |
| Permissions.InfixWildcardGrants | services/identity-service/src/utils/security.ts:157-166 | a held `a*b` grants `a` + any one-line resource + `b` unless denied |
| Permissions.WildcardKeepsAction | services/identity-service/src/utils/security.ts:157-163 | a wildcard ending in a literal grants nothing ending in another character (VIEW does not grant EDIT) |
| Permissions.GlobSuffixNeeded | services/identity-service/src/utils/security.ts:160-161 | the regex is anchored with `$`: a pattern ending in a literal only matches strings ending in it |
| Permissions.HasAnyPermission | services/identity-service/src/utils/security.ts:180-187 | true iff some required permission is granted with no policies |
| Permissions.HasAllPermissions | services/identity-service/src/utils/security.ts:190-197 | true iff every required permission is granted with no policies |
| Permissions.AllImpliesAny | services/identity-service/src/utils/security.ts:180-197 | all of a non-empty list implies any of it; for the empty list `every` is true and `some` false |
| Permissions.PermissionCodeIff | services/identity-service/src/utils/security.ts:200-202 | the split-based check accepts exactly the strings `^[A-Z]+-[A-Z_]+-[A-Z]+$` matches |
| Permissions.IsValidPermissionCode | services/identity-service/src/utils/security.ts:200-202 | the code check (no contract of its own); PermissionCodeIff, ValidCodeMatches, MatchingCodeIsValid and ValidCodeAlphabet state what it accepts |
| Permissions.ValidCodeMatches | services/identity-service/src/utils/security.ts:200-202 | every accepted code has the DEPT-RESOURCE-ACTION shape |
| Permissions.MatchingCodeIsValid | services/identity-service/src/utils/security.ts:200-202 | every string of the DEPT-RESOURCE-ACTION shape is accepted |
| Permissions.ValidCodeAlphabet | services/identity-service/src/utils/security.ts:200-202 | a valid code holds only upper-case letters, `_` and `-` |
| Permissions.MaskPII | services/identity-service/src/utils/security.ts:219-223 | same length; short values unchanged; the last `visible` characters kept and the rest starred |
| Permissions.MaskPIIAsWritten | services/identity-service/src/utils/security.ts:219-223 | `maskPII` as written (no contract of its own); MaskPIIAsWrittenAgrees and MaskPIIZeroLeaks state how it relates to the corrected MaskPII |
| Permissions.MaskPIIAsWrittenAgrees | services/identity-service/src/utils/security.ts:219-223 | for one visible character or more the code as written is the intended mask |
| Permissions.MaskPIIZeroLeaks | services/identity-service/src/utils/security.ts:221-222 | with `visibleChars` 0, `slice(-0)` appends the whole value after the stars |
| Permissions.SpreadArray | services/identity-service/src/utils/security.ts:230 | spreading an array gives an object keyed by its indices |
| Permissions.RedactObject | services/identity-service/src/utils/security.ts:226-236 | every key stays in place; exactly the listed sensitive keys become "[REDACTED]"; other values are untouched |
| Permissions.RedactSensitiveData | services/identity-service/src/utils/security.ts:226-236 | the shallow redaction (no contract of its own); its properties are the rows RedactObject, RedactLeavesScalars, RedactIdempotent and RedactIsShallow |
| Permissions.RedactLeavesScalars | services/identity-service/src/utils/security.ts:227 | anything but an object is returned as it is |
| Permissions.RedactIdempotent | services/identity-service/src/utils/security.ts:226-236 | redacting twice is redacting once |
| Permissions.RedactIsShallow | services/identity-service/src/utils/security.ts:230-235 | only top-level keys are redacted: a nested password survives |
| InputValidation.EscapeHtml | services/iot-service/src/utils/input-validator.ts:124-129 | the escaped text holds no `<`, `>`, `"` or `'` |
| InputValidation.EscapeChainIsEscapeHtml | services/iot-service/src/utils/input-validator.ts:124-129 | the five chained replacements, `&` first, equal a one-pass character encoding: no entity is escaped twice |
| InputValidation.UnescapeEscape | services/iot-service/src/utils/input-validator.ts:124-129 | escaping loses nothing: decoding the entities gives back the text |
| InputValidation.CleanString | services/iot-service/src/utils/input-validator.ts:115-130 | no control character and no markup character remains, and the result decodes to the trimmed text without control characters |
| InputValidation.RemoveTraversals | services/iot-service/src/utils/input-validator.ts:354 | one pass of `/\.\.[/\\]/g` only shortens the text and adds no character |
| InputValidation.RemoveTraversalsFixpoint | services/iot-service/src/utils/input-validator.ts:354 | a pass changes nothing exactly when no `../` or `..\\` is left |
| InputValidation.DropLeadingSeps | services/iot-service/src/utils/input-validator.ts:357 | the result is a suffix of the input that does not start with a separator |
| InputValidation.CollapseSeps | services/iot-service/src/utils/input-validator.ts:363 | after `/[/\\]+/g` no backslash remains and only `/` is added |
| InputValidation.SanitizePathAsWrittenLeaks | services/iot-service/src/utils/input-validator.ts:349-369 | as written, "....//" comes out as "../" and "//etc" as "/etc" |
| InputValidation.DotsCollapseToTraversal | services/iot-service/src/utils/input-validator.ts:354-357 | one traversal pass on "....//" rebuilds "../" |
| InputValidation.RootSurvives | services/iot-service/src/utils/input-validator.ts:354-357 | dropping one leading separator of "//etc" leaves "/etc" |
| InputValidation.SanitizePath | services/iot-service/src/utils/input-validator.ts:349-369 | corrected: no traversal left, no leading separator, no backslash, NUL or `<>:"\|?*` |
| InputValidation.PlainPathUnchanged | services/iot-service/src/utils/input-validator.ts:349-369 | on an ordinary relative path the code as written and the corrected one both change nothing |
| InputValidation.CollapseSpaces | services/iot-service/src/utils/input-validator.ts:343 | each whitespace run becomes one space, so no two whitespace characters are adjacent |
| InputValidation.SanitizeForCommand | services/iot-service/src/utils/input-validator.ts:333-346 | no dangerous character, only single spaces, nothing to trim at either end |
| InputValidation.CommandSanitiserIdempotent | services/iot-service/src/utils/input-validator.ts:333-346 | sanitising a command twice changes nothing more |
| InputValidation.KeptFields | services/iot-service/src/utils/input-validator.ts:319-324 | exactly the own properties whose key does not start with `$` are kept, in order |
| InputValidation.NoSQLRemovesOperatorKeys | services/iot-service/src/utils/input-validator.ts:304-330 | the sanitised value has no `$` key at any depth |
| InputValidation.NoSQLKeepsShape | services/iot-service/src/utils/input-validator.ts:315-329 | arrays keep their length, objects keep their ordinary keys in order, other scalars come back unchanged |
| InputValidation.SanitizeForNoSQL | services/iot-service/src/utils/input-validator.ts:304-330 | the NoSQL sanitiser (no contract of its own); NoSQLRemovesOperatorKeys, NoSQLKeepsShape and GteLeavesE state its properties |
| InputValidation.GteLeavesE | services/iot-service/src/utils/input-validator.ts:307-312 | operators are removed in list order, so "$gte" loses "$gt" and leaves "e" |
| InputValidation.SanitizeInputIsSane | services/iot-service/src/utils/input-validator.ts:372-412 | at every depth: strings cleaned and escaped, numbers finite, keys sanitised |
| InputValidation.NonFiniteBecomesZero | services/iot-service/src/utils/input-validator.ts:392-397 | NaN and the infinities become 0, inside arrays too |
| InputValidation.SanitizeInput | services/iot-service/src/utils/input-validator.ts:372-412 | the recursive sanitiser (no contract of its own); SanitizeInputIsSane and NonFiniteBecomesZero state its properties |
| InputValidation.RangeIffOutside | services/iot-service/src/utils/input-validator.ts:107-112 | a non-zero number fails the range check exactly when it lies outside the bounds |
| InputValidation.ZeroSkipsRange | services/iot-service/src/utils/input-validator.ts:83-112 | 0 and "" are falsy, so they pass every range and minimum-length check |
| InputValidation.InputValidator.Required | services/iot-service/src/utils/input-validator.ts:59-64 | adds "<name> is required" exactly when the field is falsy; nothing else changes |
| InputValidation.InputValidator.String | services/iot-service/src/utils/input-validator.ts:67-72 | adds "<name> must be a string" exactly when a truthy field is not a string |
| InputValidation.InputValidator.Number | services/iot-service/src/utils/input-validator.ts:75-80 | adds "<name> must be a number" exactly when a truthy field is not a number or is NaN |
| InputValidation.InputValidator.MinLength | services/iot-service/src/utils/input-validator.ts:83-88 | adds the minimum-length message exactly when a truthy field's length is below the minimum |
| InputValidation.InputValidator.MaxLength | services/iot-service/src/utils/input-validator.ts:91-96 | adds the maximum-length message exactly when a truthy field's length is above the maximum |
| InputValidation.InputValidator.Pattern | services/iot-service/src/utils/input-validator.ts:99-104 | adds "<name> has invalid format" exactly when a truthy field fails the test |
| InputValidation.InputValidator.Range | services/iot-service/src/utils/input-validator.ts:107-112 | adds the between message exactly when a truthy field compares below the minimum or above the maximum, with arrays, objects, booleans and null compared as JavaScript coerces them |
| InputValidation.EmptyArrayComparesAsZero | services/iot-service/src/utils/input-validator.ts:107-112 | an empty array compares as 0, so it fails the range exactly when 0 lies outside the bounds |
| InputValidation.SingletonComparesAsElement | services/iot-service/src/utils/input-validator.ts:107-112 | a one-element array compares as its element, so `["500"]` fails the range 0 to 100 |
| InputValidation.LongArrayPassesRange | services/iot-service/src/utils/input-validator.ts:107-112 | an array of two or more elements compares as NaN and passes every range check |
| InputValidation.InputValidator.SanitizeString | services/iot-service/src/utils/input-validator.ts:115-132 | a truthy string field is stored cleaned; every other field and the errors are unchanged |
| InputValidation.InputValidator.Validate | services/iot-service/src/utils/input-validator.ts:135-141 | valid exactly when no check has failed, with the errors and the sanitised record |
| InputValidation.WellFormedFieldPasses | services/iot-service/src/utils/input-validator.ts:59-96 | a present string within its length bounds passes the required, string and length checks |
| BiometricProcessor.Trunc | services/biometric-service/app/services/biometric_processor.py:221-222 | Python `int()` on a float truncates toward zero: the result lies within 1 of the input, on the side of 0 |
| BiometricProcessor.DotSelfNonneg | services/biometric-service/app/services/biometric_processor.py:280-281 | a vector's squared norm is never negative, so the norm is defined |
| BiometricProcessor.DotSymmetric | services/biometric-service/app/services/biometric_processor.py:279 | the dot product does not depend on argument order |
| BiometricProcessor.CauchySchwarz | services/biometric-service/app/services/biometric_processor.py:277-286 | the squared dot product is at most the product of the squared norms |
| BiometricProcessor.Cosine | services/biometric-service/app/services/biometric_processor.py:277-286 | the cosine similarity lies in [-1, 1] and is 0 when either norm is 0 |
| BiometricProcessor.CosineBound | services/biometric-service/app/services/biometric_processor.py:286 | dot / (norm a * norm b) lies in [-1, 1] for nonzero norms |
| BiometricProcessor.CosineSymmetric | services/biometric-service/app/services/biometric_processor.py:277-286 | the similarity of a and b equals that of b and a |
| BiometricProcessor.CosineSelf | services/biometric-service/app/services/biometric_processor.py:277-286 | a vector with a nonzero norm has similarity 1 with itself |
| BiometricProcessor.PrefixSimilarity | services/biometric-service/app/services/biometric_processor.py:158-165 | the score on the common prefix, floored at 0, lies in [0, 1] |
| BiometricProcessor.CompareFingerprint | services/biometric-service/app/services/biometric_processor.py:147-169 | the fingerprint score lies in [0, 1] and is 0 when a template does not decode |
| BiometricProcessor.CompareFingerprintSymmetric | services/biometric-service/app/services/biometric_processor.py:147-169 | comparing t1 with t2 scores the same as t2 with t1 |
| BiometricProcessor.CompareFingerprintSelf | services/biometric-service/app/services/biometric_processor.py:147-169 | a template that is not all zeros scores 1 against itself |
| BiometricProcessor.PrefixSimilarityTruncates | services/biometric-service/app/services/biometric_processor.py:158-160 | only the common prefix is compared: trailing values of the longer template never change the score |
| BiometricProcessor.Correlation | services/biometric-service/app/services/biometric_processor.py:183-187 | the correlation lies in [-1, 1], and is NaN exactly when either series has zero variance |
| BiometricProcessor.CompareFace | services/biometric-service/app/services/biometric_processor.py:171-194 | the face score lies in [0, 1]; undecodable templates and unequal lengths score 0 |
| BiometricProcessor.CompareFaceSelf | services/biometric-service/app/services/biometric_processor.py:171-194 | a face template that is not constant scores 1 against itself |
| BiometricProcessor.CompareFaceConstant | services/biometric-service/app/services/biometric_processor.py:183-187 | a constant template gives a NaN correlation and scores 0 against anything of its length |
| BiometricProcessor.Kept | services/biometric-service/app/services/biometric_processor.py:207-224 | at most one centroid per contour is kept |
| BiometricProcessor.KeptAppend | services/biometric-service/app/services/biometric_processor.py:207-224 | filtering the contours keeps the order of detection |
| BiometricProcessor.KeptSingle | services/biometric-service/app/services/biometric_processor.py:214-224 | one contour gives its centroid exactly when it qualifies |
| BiometricProcessor.ExtractMinutiae | services/biometric-service/app/services/biometric_processor.py:207-226 | the minutiae are the first 20 qualifying centroids, in detection order |
| BiometricProcessor.CreateFingerprintTemplate | services/biometric-service/app/services/biometric_processor.py:228-239 | the template has 40 slots, each holding what the slot function names |
| BiometricProcessor.TemplateHoldsPoints | services/biometric-service/app/services/biometric_processor.py:233-237 | point i is stored in slots 2i and 2i+1; slots past the last point stay 0 |
| BiometricProcessor.TemplateIgnoresExtraPoints | services/biometric-service/app/services/biometric_processor.py:233-237 | points after the twentieth never change the template |
| BiometricProcessor.SumNonneg | services/biometric-service/app/services/biometric_processor.py:248 | a histogram of nonnegative counts has a nonnegative total |
| BiometricProcessor.SumBoundsEach | services/biometric-service/app/services/biometric_processor.py:248 | no bin exceeds the total |
| BiometricProcessor.NormalizeHistogram | services/biometric-service/app/services/biometric_processor.py:241-250 | each normalised bin lies in [0, 1) and times (total + 1e-7) gives back the count |
| BiometricProcessor.SumScaled | services/biometric-service/app/services/biometric_processor.py:248 | dividing each bin by d divides the total by d |
| BiometricProcessor.NormalizedSumBelowOne | services/biometric-service/app/services/biometric_processor.py:248 | the normalised histogram sums to less than 1 |
| BiometricProcessor.FingerprintQuality | services/biometric-service/app/services/biometric_processor.py:252-259 | the quality lies in [0, 1]: 1 from variance 100 up, 0 at or below 0 |
| BiometricProcessor.FingerprintQualityMonotone | services/biometric-service/app/services/biometric_processor.py:252-259 | a sharper image never scores lower |
| BiometricProcessor.FaceQuality | services/biometric-service/app/services/biometric_processor.py:261-275 | the face quality lies in [0, 1] |
| BiometricProcessor.FaceQualityPeak | services/biometric-service/app/services/biometric_processor.py:268-275 | brightness 140 gives the highest score, and a sharp image at 140 scores 1 |
| BiometricProcessor.Minutiae | services/biometric-service/app/services/biometric_processor.py:207-226 | at most 20 minutiae are kept |
| BiometricProcessor.FingerprintTemplate | services/biometric-service/app/services/biometric_processor.py:228-239 | every template has 40 slots |
| BiometricProcessor.ProcessFingerprintAsWritten | services/biometric-service/app/services/biometric_processor.py:59-91 | as written, a missing OpenCV is re-raised as a ValueError |
| BiometricProcessor.ProcessFingerprint | services/biometric-service/app/services/biometric_processor.py:49-91 | corrected: a RuntimeError exactly when OpenCV is missing; an error exactly when OpenCV is missing or the image does not decode; quality in [0, 1] |
| BiometricProcessor.ProcessFingerprintAgrees | services/biometric-service/app/services/biometric_processor.py:59-91 | with OpenCV present both versions agree; without it they differ only in the exception class |
| BiometricProcessor.ProcessFaceAsWritten | services/biometric-service/app/services/biometric_processor.py:93-145 | as written, every failure, the missing cascade included, becomes a ValueError |
| BiometricProcessor.ProcessFace | services/biometric-service/app/services/biometric_processor.py:93-145 | corrected: a result exactly when OpenCV and the cascade are present and one face is found; RuntimeErrors only for missing capabilities |
| TemplateStore.Round2 | services/biometric-service/app/services/database_service.py:48 | a DECIMAL(3,2) column keeps the value rounded to the nearest hundredth: within half a hundredth |
| TemplateStore.StoredQuality | services/biometric-service/app/services/database_service.py:48 | a stored quality lies strictly between -10 and 10; every quality in [0, 1] is stored and stays in [0, 1] |
| TemplateStore.StoredQualityExact | services/biometric-service/app/services/database_service.py:48 | a quality already on the hundredths grid is stored unchanged |
| TemplateStore.UpsertRow | services/biometric-service/app/services/database_service.py:56-75 | corrected: the conflicting row gets the new data, quality and time, keeps its id and creation time, and is active again |
| TemplateStore.FetchRow | services/biometric-service/app/services/database_service.py:81-98 | a row is returned exactly when it exists and is active, with its id, data and quality |
| TemplateStore.ReenrolAsWrittenStaysHidden | services/biometric-service/app/services/database_service.py:61-70 | as written, re-enrolling after a deactivation leaves the row inactive, so the new template can never be fetched |
| TemplateStore.ReenrolIsVisible | services/biometric-service/app/services/database_service.py:56-98 | with the corrected upsert, a re-enrolled template is fetched |
| TemplateStore.Store.constructor | services/biometric-service/app/services/database_service.py:39-54 | a new store has no rows |
| TemplateStore.Store.Get | services/biometric-service/app/services/database_service.py:81-98 | a template is found exactly when an active row exists for that user and type, and its data is returned |
| TemplateStore.Store.StoreTemplate | services/biometric-service/app/services/database_service.py:56-79 | corrected: a quality the column cannot hold is an error that changes nothing; otherwise the row for (user, type) is upserted, keeping an existing id and made active again; every other row is unchanged |
| TemplateStore.Store.Deactivate | services/biometric-service/app/services/database_service.py:104-119 | true exactly when a row for (user, type) existed; that row becomes inactive, the others are untouched, and the template is no longer found |
| BiometricApi.ErrorResponseAsWritten | services/biometric-service/main.py:105-110 | as written: 503 exactly for a RuntimeError, 500 for every other exception, an HTTPException raised in the `try` included |
| BiometricApi.ErrorResponse | services/biometric-service/main.py:105-110 | corrected: an HTTPException keeps its status and detail, a RuntimeError is 503, a ValueError 500 |
| BiometricApi.NonImageAsWrittenIs500 | services/biometric-service/main.py:76-77 | as written, the 400 for a non-image upload is answered as 500 |
| BiometricApi.NotEnrolledAsWrittenIs500 | services/biometric-service/main.py:170-171 | as written, the 404 for a user with no template is answered as 500 |
| BiometricApi.OpenCvMissingAsWrittenIs500 | services/biometric-service/main.py:105-107 | with the processor as written, a missing OpenCV is answered 500, never 503 |
| BiometricApi.OpenCvMissingIs503 | services/biometric-service/main.py:105-107 | with the corrected processor, a missing OpenCV is answered 503 |
| BiometricApi.RoundHalfEven | services/biometric-service/main.py:189 | Python's `round` to an integer lands within one half of its input |
| BiometricApi.Round3 | services/biometric-service/main.py:189 | `round(x, 3)` lands within half a thousandth of x |
| BiometricApi.Round3Unit | services/biometric-service/main.py:189 | rounding keeps a similarity in [0, 1] |
| BiometricApi.Round3OnGrid | services/biometric-service/main.py:189 | a value with at most three decimals is its own rounding |
| BiometricApi.Similarity | services/biometric-service/main.py:177-181 | the similarity of either modality lies in [0, 1] |
| BiometricApi.Verify | services/biometric-service/main.py:156-243 | corrected: a processing error maps through the handler, a missing template is 404, a decryption error maps through the handler, and a processed capture with an active, decryptable template gives a verification whose confidence is the rounded similarity (and only then) |
| BiometricApi.VerifyAfterEnroll | services/biometric-service/main.py:69-243 | enrolling a capture and then verifying the same capture is verified, with confidence 1.0 and the capture's quality |
| BiometricApi.VerifyConfidenceInUnit | services/biometric-service/main.py:187-190 | a verification response carries a confidence in [0, 1] |
| BiometricApi.ThresholdIsStrict | services/biometric-service/main.py:182-183 | a similarity exactly at the threshold is rejected (0.7 here; the same holds for the face threshold of 0.75 at line 228) |
| BiometricApi.Enroll | services/biometric-service/main.py:69-153 | corrected: a non-image is 400, and a processing or cipher error maps through the handler; a quality the column cannot hold is 500; each of these changes nothing; otherwise the user is enrolled and the active row holds the encrypted template and the stored quality; rows of other keys are unchanged |
| Bytes.HexEncode | services/biometric-service-v2/src/services/BiometricMatcher.ts:105 | `toString('hex')` writes two hex digits per byte |
| Bytes.HexRoundTrip | services/biometric-service-v2/src/services/BiometricMatcher.ts:105 | hex encoding loses nothing: decoding gives the bytes back |
| Bytes.HexInjective | services/biometric-service-v2/src/services/BiometricMatcher.ts:166 | two flow strings are equal exactly when the digest bytes they render are equal |
| BiometricFeatures.RidgeOf | services/biometric-service-v2/src/services/BiometricMatcher.ts:100-107 | the ridge density lies in [0, 1] and the flow is 16 hex characters (bytes 2 to 9 of the digest) |
| BiometricFeatures.Variance | services/biometric-service-v2/src/services/BiometricMatcher.ts:121-127 | the population variance is defined exactly for a nonempty buffer and is never negative |
| BiometricFeatures.SquaresNonneg | services/biometric-payment-service/src/BiometricPaymentService.ts:254-257 | the sum of squared deviations is never negative |
| BiometricFeatures.VarianceQuality | services/biometric-service-v2/src/services/BiometricMatcher.ts:116-120 | `Math.min(1, variance / 1000)` lies in [0, 1] and is 1 exactly from variance 1000 up |
| BiometricPayment.ExtractMinutiae | services/biometric-payment-service/src/BiometricPaymentService.ts:180-191 | ten points from the 32-byte digest, point k built from bytes 2k and 2k+1 |
| BiometricPayment.MinutiaeOf | services/biometric-payment-service/src/BiometricPaymentService.ts:180-191 | the digest always gives ten points |
| BiometricPayment.MinutiaeInRange | services/biometric-payment-service/src/BiometricPaymentService.ts:183-188 | every point has coordinates in 0..255 and an angle in [0, 360) |
| BiometricPayment.AssessQuality | services/biometric-payment-service/src/BiometricPaymentService.ts:248-258 | the quality lies in [0, 1] and is NaN exactly for an empty capture |
| BiometricPayment.ExtractFeatures | services/biometric-payment-service/src/BiometricPaymentService.ts:137-154 | the features hold ten points and a ridge density in [0, 1] |
| BiometricPayment.Matched | services/biometric-payment-service/src/BiometricPaymentService.ts:220-236 | no more points match than the first list holds |
| BiometricPayment.CompareMinutiae | services/biometric-payment-service/src/BiometricPaymentService.ts:220-239 | the method's nested loops compute the minutiae score |
| BiometricPayment.MatchedSelf | services/biometric-payment-service/src/BiometricPaymentService.ts:220-236 | every point of a list matches itself |
| BiometricPayment.MinutiaeScore | services/biometric-payment-service/src/BiometricPaymentService.ts:220-239 | matches over the longer length lies in [0, 1], and is NaN exactly when both lists are empty |
| BiometricPayment.RidgeScore | services/biometric-payment-service/src/BiometricPaymentService.ts:241-246 | 0 across pattern types; otherwise at most 1, and 1 exactly at equal densities |
| BiometricPayment.CompareBiometrics | services/biometric-payment-service/src/BiometricPaymentService.ts:170-177 | 70% minutiae plus 30% ridge lies in [0, 1], NaN exactly when both point lists are empty |
| BiometricPayment.CompareBiometricsSelf | services/biometric-payment-service/src/BiometricPaymentService.ts:170-177 | features with some points score 1 against themselves |
| BiometricPayment.Best | services/biometric-payment-service/src/BiometricPaymentService.ts:104-118 | the best score of the loop is never negative |
| BiometricPayment.BestIsUpperBound | services/biometric-payment-service/src/BiometricPaymentService.ts:107-118 | no template scores above the best |
| BiometricPayment.BestIsFirstMaximum | services/biometric-payment-service/src/BiometricPaymentService.ts:107-118 | the matched user is the one of the first template reaching the best score, which is above 0; with no match, no template scored above 0 |
| BiometricPayment.AuthorizePayment | services/biometric-payment-service/src/BiometricPaymentService.ts:92-134 | an error exactly when some template fails to decrypt or parse; otherwise the best score and user, authorised exactly when the best reaches 0.85 and some user matched, with the unmatched user id "" |
| BiometricMatcher.IsMatch | services/biometric-service-v2/src/services/BiometricMatcher.ts:77-79 | a match exactly when the score reaches 0.85, the threshold included |
| BiometricMatcher.MinutiaeCount | services/biometric-service-v2/src/services/BiometricMatcher.ts:85 | min(20, floor(length / 3)): never more than 20 points, never reading past the digest |
| BiometricMatcher.ExtractMinutiae | services/biometric-service-v2/src/services/BiometricMatcher.ts:83-98 | that many points, point i built from bytes 3i to 3i+2 |
| BiometricMatcher.MinutiaeOf | services/biometric-service-v2/src/services/BiometricMatcher.ts:83-98 | the point count is min(20, floor(length / 3)) |
| BiometricMatcher.DigestMinutiae | services/biometric-service-v2/src/services/BiometricMatcher.ts:83-98 | a 32-byte digest gives 10 points with even coordinates below 512 and angles in [0, 360] |
| BiometricMatcher.AssessQuality | services/biometric-service-v2/src/services/BiometricMatcher.ts:109-120 | 0.3 under 1000 bytes, 0.9 over 100000, and always in [0, 1] |
| BiometricMatcher.ExtractFeatures | services/biometric-service-v2/src/services/BiometricMatcher.ts:32-44 | the features hold 10 points, a density in [0, 1] and a quality in [0, 1] |
| BiometricMatcher.Matched | services/biometric-service-v2/src/services/BiometricMatcher.ts:135-150 | no more points match than the first list holds |
| BiometricMatcher.MinutiaeScore | services/biometric-service-v2/src/services/BiometricMatcher.ts:129-153 | the minutiae score lies in [0, 1] and is 0 when either list is empty |
| BiometricMatcher.CompareMinutiae | services/biometric-service-v2/src/services/BiometricMatcher.ts:129-153 | the method's nested loops, with the inner `break`, compute the minutiae score |
| BiometricMatcher.MatchedSelf | services/biometric-service-v2/src/services/BiometricMatcher.ts:135-150 | every point of a list matches itself |
| BiometricMatcher.RidgeScore | services/biometric-service-v2/src/services/BiometricMatcher.ts:155-169 | 0 across types; at equal type and density, 1 exactly when the flows agree and 0.8 otherwise; never above 1 |
| BiometricMatcher.CompareTemplates | services/biometric-service-v2/src/services/BiometricMatcher.ts:47-61 | 0 when either quality is below 0.5; otherwise a score of at most 1 and at least 0 |
| BiometricMatcher.CompareTemplatesSelf | services/biometric-service-v2/src/services/BiometricMatcher.ts:47-79 | good-quality features with some points score 1 against themselves and match |
| BiometricMatcher.SmallCaptureRejected | services/biometric-service-v2/src/services/BiometricMatcher.ts:47-120 | a capture under 1000 bytes scores quality 0.3 and so matches nothing |
| Luhn.Weighted | services/virtual-card-service-v2/src/models/VirtualCard.ts:375-380 | a digit's contribution, doubled or not, is a single digit |
| Luhn.LuhnSum | services/virtual-card-service-v2/src/models/VirtualCard.ts:369-386 | the weighted digit sum (no contract of its own); LuhnSumAppend, AppendCheckDigitValid and SingleSubstitutionDetected state its properties |
| Luhn.CheckDigit | services/virtual-card-service-v2/src/models/VirtualCard.ts:385 | the check digit is a single digit |
| Luhn.CalculateCheckDigit | services/virtual-card-service-v2/src/models/VirtualCard.ts:369-386 | the right-to-left loop, doubling from the last digit on, computes the check digit |
| Luhn.LuhnSumAppend | services/virtual-card-service-v2/src/models/VirtualCard.ts:372-383 | splitting a number shifts the left part's doubling parity by the length of the right part |
| Luhn.SameResidue | services/virtual-card-service-v2/src/models/VirtualCard.ts:385 | at most one digit brings a sum to a multiple of ten |
| Luhn.AppendCheckDigitValid | services/virtual-card-service-v2/src/models/VirtualCard.ts:360-366 | a number with its check digit appended passes the Luhn test |
| Luhn.CheckDigitUnique | services/virtual-card-service-v2/src/models/VirtualCard.ts:369-386 | the check digit is the only digit that completes the number to a valid one |
| Luhn.WeightedInjective | services/virtual-card-service-v2/src/models/VirtualCard.ts:375-380 | weighting maps different digits to different contributions |
| Luhn.SingleSubstitutionDetected | services/virtual-card-service-v2/src/models/VirtualCard.ts:369-386 | replacing any single digit of a valid number makes it invalid |
| Currency.Convert | services/virtual-card-service-v2/src/models/VirtualCard.ts:396-418 | the amount is multiplied by a positive rate: 1 for the same currency or an unlisted pair, the table's rate otherwise |
| Currency.TableRatesPositive | services/virtual-card-service-v2/src/models/VirtualCard.ts:402-407 | every listed rate is positive and no currency is listed against itself |
| Currency.ConvertKeepsSign | services/virtual-card-service-v2/src/models/VirtualCard.ts:396-418 | conversion keeps the sign of the amount |
| Currency.RoundTripDrift | services/virtual-card-service-v2/src/models/VirtualCard.ts:402-407 | converting KES to USD and back multiplies by 1.001; USD to EUR and back by 1.0028 |
| VirtualCard.MakeTransaction | services/virtual-card-service-v2/src/models/VirtualCard.ts:321-350 | an authorisation code is drawn exactly for an approved transaction; the other fields are those given |
| VirtualCard.Bin | services/virtual-card-service-v2/src/models/VirtualCard.ts:354 | the prefix is four digits: 5399 for Mastercard, 4111 for Visa |
| VirtualCard.GenerateCardNumber | services/virtual-card-service-v2/src/models/VirtualCard.ts:352-367 | sixteen digits: the prefix, the eleven random digits, and a check digit that makes the number Luhn-valid |
| VirtualCard.CardStore.constructor | services/virtual-card-service-v2/src/models/VirtualCard.ts:46-75 | a new store has no cards, transactions or top-ups |
| VirtualCard.CardStore.TopUpCard | services/virtual-card-service-v2/src/models/VirtualCard.ts:131-178 | a missing card is 'Card not found' and nothing changes; otherwise the balance grows by amount times rate and one top-up row is logged; no balance goes negative when the credit is not negative |
| VirtualCard.CardStore.ProcessTransaction | services/virtual-card-service-v2/src/models/VirtualCard.ts:183-290 | a missing card is an error that changes nothing; an inactive card or a converted amount above the balance is declined and leaves the cards as they were; otherwise the card is debited, so no balance goes negative; each outcome logs one transaction |
| VirtualCardService.ProcessPayment | services/virtual-card-service/src/VirtualCardService.ts:112-182 | an inactive card is declined in the payment's own terms; otherwise the converted amount is approved exactly when it fits the balance |
| VirtualCardService.SameCurrencyApproval | services/virtual-card-service/src/VirtualCardService.ts:112-182 | in the card's currency a payment is approved exactly when the card is active and the amount fits the balance |
| VirtualCardService.TopUpCard | services/virtual-card-service/src/VirtualCardService.ts:184-205 | the amount is converted to USD at the table's rate, 1 for USD itself |
| VirtualCardService.MaskCardNumber | services/virtual-card-service/src/VirtualCardService.ts:287-289 | the masked number keeps the first and last four characters around three masked groups |
| VirtualCardService.MaskRevealsOnlyEnds | services/virtual-card-service/src/VirtualCardService.ts:287-289 | two 16-digit numbers mask the same exactly when their first and last four digits agree |
| Wallet.Ledger.constructor | services/wallet-service/src/models/Wallet.ts:32-38 | a ledger starts from the given wallets with an empty log |
| Wallet.Ledger.GetBalance | services/wallet-service/src/models/Wallet.ts:50-53 | the user's balance, or 0 when the user has no wallet |
| Wallet.Ledger.CreditWallet | services/wallet-service/src/models/Wallet.ts:55-104 | a missing wallet is 'Wallet not found' and nothing changes; otherwise the balance grows by the amount and one log row records before and after; every balance stays its opening balance plus its logged flow |
| Wallet.Ledger.DebitWallet | services/wallet-service/src/models/Wallet.ts:108-162 | a missing wallet or a balance that would go negative is an error that changes nothing; otherwise the balance shrinks by the amount and one row is logged |
| Wallet.LogAppend | services/wallet-service/src/models/Wallet.ts:90-97 | a new log row moves only its own user's net flow, by its signed amount |
| Wallet.NetFlowConcat | services/wallet-service/src/models/Wallet.ts:84-97 | the net flow of a log is the sum over its parts |
| Wallet.CreditThenDebitCancels | services/wallet-service/src/models/Wallet.ts:55-162 | a credit and a debit of the same amount leave the net flow unchanged |
| AgentFloat.AgentBook.constructor | services/agent-service-v2/src/models/Agent.ts:40-53 | a new book holds no floats, log rows or statistics |
| AgentFloat.AgentBook.InitializeFloat | services/agent-service-v2/src/models/Agent.ts:40-53 | an existing float is returned unchanged; otherwise a zero float in the given currency is created; a second call changes nothing; the book stays valid |
| AgentFloat.AgentBook.CreditFloat | services/agent-service-v2/src/models/Agent.ts:66-111 | a missing float is 'Agent float not found' and nothing changes; otherwise the balance grows by the amount, the top-up time is stamped and one chained log row is appended; a non-negative credit keeps the book valid (each agent's rows chained from zero to its balance) |
| AgentFloat.AgentBook.DebitFloat | services/agent-service-v2/src/models/Agent.ts:118-168 | a missing float or a balance that would go negative is an error that changes nothing; otherwise the balance shrinks by the amount and one chained log row is appended; the book stays valid |
| AgentFloat.AgentBook.UpdateStatistics | services/agent-service-v2/src/models/Agent.ts:232-268 | only this agent's counters change: a registration counts a customer, a cash-in or cash-out counts itself and adds the amount to the volumes; counters stay nonnegative |
| AgentFloat.ChainedReplay | services/agent-service-v2/src/models/Agent.ts:88-103 | in a chained float log the last closing balance is the opening balance replayed through every row |
| AgentFloat.AppendLoggedRow | services/agent-service-v2/src/models/Agent.ts:88-103 | the row a credit or debit logs keeps a chained log chained, and the replay is the float's new balance |
| AgentFloat.RowsOf | services/agent-service-v2/src/models/Agent.ts:98-104 | one agent's rows of the transaction log are no more than the log |
| AgentFloat.RowsOfAppend | services/agent-service-v2/src/models/Agent.ts:98-104 | appending a row adds it to its own agent's rows and to no other agent's |
| AgentFloat.RowsOfAbsent | services/agent-service-v2/src/models/Agent.ts:40-53 | an agent with no logged row has no rows |
| AgentFloat.NewFloatKeepsValid | services/agent-service-v2/src/models/Agent.ts:40-53 | a new zero float for an agent without one keeps the book valid: floats keyed and non-negative, every row owned by a float, each agent's rows chained from zero to its balance |
| AgentFloat.LoggedRowKeepsValid | services/agent-service-v2/src/models/Agent.ts:88-104 | moving a float to the closing balance of the row it logs, when not negative, keeps the book valid |
| AgentFloat.LoggedRowKeepsChain | services/agent-service-v2/src/models/Agent.ts:88-104 | after a logged credit or debit every agent's rows are still chained to its float's balance |
| AgentFloat.ChainedToAppend | services/agent-service-v2/src/models/Agent.ts:88-104 | rows chained from zero to a balance, plus the row logged at that balance, are chained to the row's closing balance |
| LedgerIntegrity.NextLevel | services/ledger-integrity-service/src/index.ts:89-97 | one round pairs adjacent hashes, carrying an odd last one as its own pair, into ceil(n / 2) hashes |
| LedgerIntegrity.Root | services/ledger-integrity-service/src/index.ts:86-99 | the empty batch has the empty root and a single hash is its own root |
| LedgerIntegrity.RootOf | services/ledger-integrity-service/src/index.ts:86-99 | the repeated pairing down to one hash (no contract of its own); Root, RootOfPair, OddBatchPaddingCollision and RootIsHashOutput state its properties, MerkleRoot that the loop computes it |
| LedgerIntegrity.MerkleRoot | services/ledger-integrity-service/src/index.ts:86-99 | the loop computes the Merkle root |
| LedgerIntegrity.RootOfPair | services/ledger-integrity-service/src/index.ts:86-99 | two hashes combine into the hash of their concatenation |
| LedgerIntegrity.OddBatchPaddingCollision | services/ledger-integrity-service/src/index.ts:91-96 | duplicating the last hash of an odd batch leaves the root unchanged, so the root alone does not fix a batch's length |
| LedgerIntegrity.RootIsHashOutput | services/ledger-integrity-service/src/index.ts:86-99 | the root of a nonempty batch is one of its hashes or an output of the hash function |
| LedgerIntegrity.ComputedHashes | services/ledger-integrity-service/src/index.ts:121-124 | one recomputed hash per entry, sha256 of the previous hash and the payload |
| LedgerIntegrity.ChainValid | services/ledger-integrity-service/src/index.ts:119-134 | every stated hash and link agrees with the recomputed ones (no contract of its own); VerifyBatch answers it, and WellChainedIsValid and TamperedPayloadDetected state its properties |
| LedgerIntegrity.IntegrityService.constructor | services/ledger-integrity-service/src/index.ts:58-60 | the service starts with no stored root |
| LedgerIntegrity.IntegrityService.VerifyBatch | services/ledger-integrity-service/src/index.ts:112-145 | an empty batch is a 400 that leaves the stored root alone; otherwise validChain is false exactly when a stated hash or link disagrees, and the root and last hash are answered and the root stored |
| LedgerIntegrity.WellChainedIsValid | services/ledger-integrity-service/src/index.ts:119-134 | a batch whose stated hashes and links are the recomputed ones is a valid chain |
| LedgerIntegrity.TamperedPayloadDetected | services/ledger-integrity-service/src/index.ts:122-128 | with a collision-free hash, changing an entry's payload breaks the chain |
| LedgerIntegrity.VerifiedRootIsAnchorable | services/ledger-integrity-service/src/index.ts:50-56 | with a hash that always renders 64 hex digits, every verified batch's root passes the anchor schema |
| MqttBroker.TopicMatchesAsWritten | services/iot-service/src/mqtt-broker.ts:100-121 | as written: the loop rejects any level-count mismatch before it reaches '#' |
| MqttBroker.MatchesAsWritten | services/iot-service/src/mqtt-broker.ts:100-121 | the matcher as written (no contract of its own); TopicMatchesAsWritten is its loop, and AsWrittenIsStricter, AgreeWithoutHash and HashAsWrittenMissesDeeperTopics relate it to Matches |
| MqttBroker.TopicMatches | services/iot-service/src/mqtt-broker.ts:100-121 | corrected: the same loop, with '#' taking the parent topic and every topic below it |
| MqttBroker.Matches | services/iot-service/src/mqtt-broker.ts:100-121 | the corrected matcher (no contract of its own); TopicMatches is its loop, and MatchesSelf, PlusMatchesAnyOneLevel and HashMatchesParentAndChildren state its behaviour |
| MqttBroker.MatchesSelf | services/iot-service/src/mqtt-broker.ts:100-121 | every topic matches itself under both matchers |
| MqttBroker.AsWrittenIsStricter | services/iot-service/src/mqtt-broker.ts:100-121 | the matcher as written never accepts what the corrected one rejects |
| MqttBroker.AgreeWithoutHash | services/iot-service/src/mqtt-broker.ts:100-121 | without '#' the two matchers agree, and a match needs equal level counts |
| MqttBroker.PlusMatchesAnyOneLevel | services/iot-service/src/mqtt-broker.ts:109-111 | '+' stands for exactly one level |
| MqttBroker.HashMatchesParentAndChildren | services/iot-service/src/mqtt-broker.ts:112-114 | a filter ending in '#' takes its parent topic and every topic below it |
| MqttBroker.HashAsWrittenMissesDeeperTopics | services/iot-service/src/mqtt-broker.ts:104-114 | as written, "eazepay/#" misses "eazepay/devices/d1/telemetry", which the corrected matcher takes |
| MqttBroker.Patterns | services/iot-service/src/mqtt-broker.ts:8 | the registry lists one filter per subscription, in order |
| MqttBroker.MatchingHandlers | services/iot-service/src/mqtt-broker.ts:90-95 | the handlers called are exactly those whose filter matches, in registration order |
| MqttBroker.Broker.constructor | services/iot-service/src/mqtt-broker.ts:5-8 | a new broker has no handlers |
| MqttBroker.Broker.Subscribe | services/iot-service/src/mqtt-broker.ts:54-67 | without a client it throws 'MQTT client not connected'; a refused SUBSCRIBE changes nothing; otherwise the filter's handler is replaced in place or appended |
| MqttBroker.Broker.HandleMessage | services/iot-service/src/mqtt-broker.ts:85-98 | corrected: a payload that is not JSON is dropped; otherwise exactly the matching handlers are called, in order |
| SharedSanitize.SanitizeKeepsShape | services/shared/validation/src/middleware/sanitize.ts:18-69 | sanitising changes strings only: arrays, objects, keys and other scalars keep their shape |
| SharedSanitize.AllOffIsIdentity | services/shared/validation/src/middleware/sanitize.ts:30-53 | with every option off, sanitising returns its input |
| SharedSanitize.DefaultsClean | services/shared/validation/src/middleware/sanitize.ts:22-53 | with the default options a string is trimmed and stripped of control characters, then escaped |
| SharedSanitize.SanitizeInput | services/shared/validation/src/middleware/sanitize.ts:18-69 | the recursive sanitiser (no contract of its own); SanitizeKeepsShape, AllOffIsIdentity and DefaultsClean state its properties |
| SharedSanitize.KeepFields | services/shared/validation/src/middleware/sanitize.ts:107-113 | exactly the fields whose key is not dropped are kept |
| SharedSanitize.RemoveKeysRemoves | services/shared/validation/src/middleware/sanitize.ts:98-117 | no dropped key survives at any depth |
| SharedSanitize.RemoveSensitiveFields | services/shared/validation/src/middleware/sanitize.ts:98-117 | the corrected, case-insensitive removal (no contract of its own); SensitiveFieldsGone and LowerCaseListAgrees state it |
| SharedSanitize.LowerAll | services/shared/validation/src/middleware/sanitize.ts:109 | each listed name lower-cased, in order |
| SharedSanitize.SensitiveFieldsGone | services/shared/validation/src/middleware/sanitize.ts:98-117 | corrected: no key equal to a listed name up to case survives at any depth |
| SharedSanitize.ApiKeySurvivesAsWritten | services/shared/validation/src/middleware/sanitize.ts:100-109 | as written, a top-level "apiKey" survives, because the lower-cased key is compared with the mixed-case default |
| SharedSanitize.RemoveSensitiveFieldsAsWritten | services/shared/validation/src/middleware/sanitize.ts:98-117 | the removal as written (no contract of its own); ApiKeySurvivesAsWritten and LowerCaseListAgrees relate it to the corrected one |
| SharedSanitize.LowerCaseListAgrees | services/shared/validation/src/middleware/sanitize.ts:98-117 | for a list written in lower case the code as written and the corrected one agree |
| SharedSanitize.NormalizePhoneNumber | services/shared/validation/src/middleware/sanitize.ts:122-143 | digits only; for Kenya, "+254" followed by digits |
| SharedSanitize.NormalizeIdempotent | services/shared/validation/src/middleware/sanitize.ts:122-143 | normalising a normalised Kenyan number changes nothing |
| SharedSanitize.LocalAndInternationalAgree | services/shared/validation/src/middleware/sanitize.ts:127-140 | the local form 0X and the international form 254X normalise to the same "+254X" |
| SharedSanitize.RemoveTags | services/shared/validation/src/middleware/sanitize.ts:156 | removing `<[^>]*>` leaves no tag and adds no character |
| SharedSanitize.RemoveAllKeepsNoTag | services/shared/validation/src/middleware/sanitize.ts:156 | dropping control characters after the tags never creates a tag |
| SharedSanitize.StripHTML | services/shared/validation/src/middleware/sanitize.ts:155-157 | the result holds no tag and no control character |
| SharedSanitize.PlainTextUnchanged | services/shared/validation/src/middleware/sanitize.ts:155-157 | text with no '<' and no control character passes through unchanged |
| SharedSanitize.RemoveTagsKeeps | services/shared/validation/src/middleware/sanitize.ts:156 | text with no '<' loses nothing to the tag removal |
| MpesaService.FormatPhoneNumber | services/mpesa-service/src/services/MpesaService.ts:159-171 | the result starts with 254 and holds no blank, dash or '+' |
| MpesaService.PrefixesAgree | services/mpesa-service/src/services/MpesaService.ts:159-171 | a number written with a leading 0, with 254 or with +254 formats to the same MSISDN |
| MpesaService.LeadingZero | services/mpesa-service/src/services/MpesaService.ts:162-164 | a leading 0 becomes 254 |
| MpesaService.Already254 | services/mpesa-service/src/services/MpesaService.ts:166-168 | a number already starting with 254 is kept |
| MpesaService.PlusPrefix | services/mpesa-service/src/services/MpesaService.ts:160 | the '+' of +254 is stripped |
| MpesaService.FormatIdempotent | services/mpesa-service/src/services/MpesaService.ts:159-171 | formatting a formatted number changes nothing |
| MpesaService.SubscriberForms | services/mpesa-service/src/services/MpesaService.ts:173-177 | a number in local, 254 or +254 form validates exactly when 254 and its subscriber part form a Kenyan MSISDN |
| MpesaService.ValidatePhoneNumber | services/mpesa-service/src/services/MpesaService.ts:173-177 | the formatted number is a Kenyan MSISDN (no contract of its own); SubscriberForms states which inputs it accepts |
| MpesaService.Timestamp | services/mpesa-service/src/services/MpesaService.ts:142-152 | the timestamp is all digits |
| MpesaService.TimestampFields | services/mpesa-service/src/services/MpesaService.ts:142-152 | for in-range clock fields the stamp is YYYYMMDDHHmmss, the month counted from 1, every field readable back |
| MpesaService.PasswordCarriesTimestamp | services/mpesa-service/src/services/MpesaService.ts:154-157 | decoding the password gives shortcode, passkey and timestamp, so the timestamp is read off its end |
| MpesaService.Password | services/mpesa-service/src/services/MpesaService.ts:154-157 | the encoded shortcode, passkey and timestamp (no contract of its own); PasswordCarriesTimestamp states it |
| MpesaIntegration.RawValidImpliesFormatted | services/mpesa-integration-service/src/MpesaService.ts:192-196 | a number the integration service accepts is already formatted, and the other service accepts it too |
| MpesaIntegration.LocalFormRejected | services/mpesa-integration-service/src/MpesaService.ts:192-196 | the integration service checks the raw input, so the local form 07… is rejected although formatting would accept it |
| MpesaIntegration.ValidatePhoneNumber | services/mpesa-integration-service/src/MpesaService.ts:192-196 | the raw input is a Kenyan MSISDN (no contract of its own); RawValidImpliesFormatted and LocalFormRejected relate it to the other service's check |
| MpesaIntegration.QueryTransaction | services/mpesa-integration-service/src/MpesaService.ts:122-165 | success exactly for ResultCode "0"; completed for "0", failed for "1032" or a failed query POST, pending otherwise |
| MpesaIntegration.Round | services/mpesa-integration-service/src/MpesaService.ts:78 | `Math.round` gives the nearest integer, halves rounded up |
| MpesaIntegration.RoundProperties | services/mpesa-integration-service/src/MpesaService.ts:78 | whole amounts are sent unchanged and halves round towards +infinity |
| CircuitBreaker.OrDefault | portals/agent-portal/src/services/circuitBreaker.ts:28-31 | `x \|\| d`: a missing or zero setting takes the default |
| CircuitBreaker.DefaultConfig | portals/agent-portal/src/services/circuitBreaker.ts:26-33 | an empty configuration gives 5 failures, 2 successes, a 60 s timeout and a 30 s reset |
| CircuitBreaker.PortalBreakers | portals/agent-portal/src/services/circuitBreaker.ts:115-134 | the portal's breakers: biometric and M-Pesa open after 3 failures, identity and wallet after 5 |
| CircuitBreaker.OpenRejects | portals/agent-portal/src/services/circuitBreaker.ts:36-39 | while open and before the next attempt time the call is refused, the wrapped function never runs and nothing changes |
| CircuitBreaker.ThresholdOpens | portals/agent-portal/src/services/circuitBreaker.ts:79-86 | the failure that reaches the threshold opens the breaker for the reset timeout |
| CircuitBreaker.SuccessClearsFailures | portals/agent-portal/src/services/circuitBreaker.ts:67-69 | a success clears the failure count and returns the value; a closed breaker stays closed |
| CircuitBreaker.TrialAfterReset | portals/agent-portal/src/services/circuitBreaker.ts:36-43 | once the next attempt time has passed an open breaker lets one call through as half-open, counting successes from 0 |
| CircuitBreaker.HalfOpenCloses | portals/agent-portal/src/services/circuitBreaker.ts:70-76 | half-open closes exactly when the successes reach the success threshold |
| CircuitBreaker.HalfOpenFailureAfterSuccess | portals/agent-portal/src/services/circuitBreaker.ts:67-86 | a success in half-open clears the failure count, so the next failure re-opens only with a threshold of 1 |
| CircuitBreaker.NextKeepsInv | portals/agent-portal/src/services/circuitBreaker.ts:35-90 | every call keeps the state consistent with its counters: open only at or past the failure threshold, closed below it, half-open below the success threshold |
| CircuitBreaker.FewFailuresStayClosed | portals/agent-portal/src/services/circuitBreaker.ts:79-86 | from closed, fewer consecutive failures than the threshold keep it closed and are counted |
| CircuitBreaker.ThresholdFailuresOpen | portals/agent-portal/src/services/circuitBreaker.ts:79-86 | from closed, the failure that reaches the threshold opens it until that time plus the reset timeout |
| CircuitBreaker.Breaker.constructor | portals/agent-portal/src/services/circuitBreaker.ts:20-33 | a new breaker is closed with both counters at 0 |
| CircuitBreaker.Breaker.OnSuccessStep | portals/agent-portal/src/services/circuitBreaker.ts:67-77 | the fields move as the success step says |
| CircuitBreaker.Breaker.OnFailureStep | portals/agent-portal/src/services/circuitBreaker.ts:79-90 | the fields move as the failure step says |
| CircuitBreaker.OnSuccess | portals/agent-portal/src/services/circuitBreaker.ts:67-77 | the success step (no contract of its own); SuccessClearsFailures, HalfOpenCloses and Breaker.OnSuccessStep state it |
| CircuitBreaker.OnFailure | portals/agent-portal/src/services/circuitBreaker.ts:79-90 | the failure step (no contract of its own); ThresholdOpens, FewFailuresStayClosed, ThresholdFailuresOpen and Breaker.OnFailureStep state it |
| CircuitBreaker.Next | portals/agent-portal/src/services/circuitBreaker.ts:35-90 | one call of `execute` (no contract of its own); OpenRejects, TrialAfterReset, NextKeepsInv and Breaker.Execute state it |
| CircuitBreaker.Breaker.Execute | portals/agent-portal/src/services/circuitBreaker.ts:35-57 | the fields and the response follow the transition function, and the invariant is kept |
| CircuitBreaker.Breaker.GetState | portals/agent-portal/src/services/circuitBreaker.ts:103-105 | the current state |
| CircuitBreaker.Breaker.Reset | portals/agent-portal/src/services/circuitBreaker.ts:107-112 | closed with both counters at 0; the next attempt time is left alone |
| Telemetry.DeviceIdOfTopic | services/iot-service/src/telemetry-processor.ts:30 | `topic.split('/')[2]`: the third level of a topic is its device id, whatever follows |
| Telemetry.ShortTopicHasNoDevice | services/iot-service/src/telemetry-processor.ts:30 | a topic of one or two levels names no device (`undefined`) |
| Telemetry.ReadingOf | services/iot-service/src/telemetry-processor.ts:31-38 | the stored reading keeps device, metric and value, with `unit \|\| ''` and `timestamp \|\| Date.now()` |
| Telemetry.LastN | services/iot-service/src/telemetry-processor.ts:48-51 | the kept suffix holds n readings, or all of them when there are fewer |
| Telemetry.PushKeepsWindow | services/iot-service/src/telemetry-processor.ts:40-51 | a buffer holding the last 1000 readings of a history still does after one more, and ends with it |
| Telemetry.Push | services/iot-service/src/telemetry-processor.ts:40-51 | push, then shift past the bound (no contract of its own); PushKeepsWindow and PushKeepsWindows state that the buffer stays the last 1000 readings |
| Telemetry.Issues | services/iot-service/src/telemetry-processor.ts:127-139 | low battery below 20, weak signal below 30 and high temperature above 60, each exactly when the reading is known and out of range |
| Telemetry.UpdateHealth | services/iot-service/src/telemetry-processor.ts:95-149 | the time is stamped, the device kept, and the issues recomputed from the recorded readings |
| Telemetry.StatusClassification | services/iot-service/src/telemetry-processor.ts:141-148 | HEALTHY with no issue, CRITICAL only with all three, WARNING otherwise |
| Telemetry.StatusOf | services/iot-service/src/telemetry-processor.ts:141-148 | the status from the issue count (no contract of its own); StatusClassification and CountsPartition state it |
| Telemetry.UpdateRecordsMetric | services/iot-service/src/telemetry-processor.ts:106-125 | a reading records its own metric and leaves the other readings as they were |
| Telemetry.FirstLowBattery | services/iot-service/src/telemetry-processor.ts:95-149 | a first low-battery reading on a new device gives a WARNING with just that issue |
| Telemetry.AlertsFor | services/iot-service/src/telemetry-processor.ts:151-169 | critical battery below 10, over-temperature above 70 and signal loss below 20, each exactly for its metric |
| Telemetry.AlertImpliesIssue | services/iot-service/src/telemetry-processor.ts:127-169 | a reading that raises an alert also raises the matching health issue |
| Telemetry.Select | services/iot-service/src/telemetry-processor.ts:66-89 | the selection is never longer than the buffer |
| Telemetry.SelectMembers | services/iot-service/src/telemetry-processor.ts:72-88 | exactly the readings of the metric within the inclusive time window are kept |
| Telemetry.SelectAppend | services/iot-service/src/telemetry-processor.ts:72-88 | filtering keeps arrival order |
| Telemetry.SelectAll | services/iot-service/src/telemetry-processor.ts:72-88 | with no filter the whole buffer comes back |
| Telemetry.CountsPartition | services/iot-service/src/telemetry-processor.ts:171-181 | every known device is counted under exactly one status |
| Telemetry.TelemetryProcessor.constructor | services/iot-service/src/telemetry-processor.ts:24-25 | a new processor holds no readings and no health records |
| Telemetry.TelemetryProcessor.ProcessTelemetry | services/iot-service/src/telemetry-processor.ts:27-64 | the reading is appended to the device's buffer, which keeps the last 1000, and the device's health is updated; no other device changes |
| Telemetry.PushKeepsWindows | services/iot-service/src/telemetry-processor.ts:40-51 | pushing onto one device's buffer leaves every buffer holding the last 1000 readings of its device |
| Telemetry.TelemetryProcessor.StoreReading | services/iot-service/src/telemetry-processor.ts:40-51 | the reading joins its device's history; the device's buffer becomes the push-and-shift of the old one; health is untouched; every buffer still holds its device's last 1000 readings |
| Telemetry.TelemetryProcessor.UpdateDeviceHealth | services/iot-service/src/telemetry-processor.ts:95-149 | only the device's health record changes, to the update of its old record (a fresh one for a new device) |
| Telemetry.TelemetryProcessor.GetTelemetry | services/iot-service/src/telemetry-processor.ts:66-89 | an unknown device gives []; otherwise exactly the buffered readings that pass the filters, never more than the buffer holds |
| Telemetry.TelemetryProcessor.GetDeviceHealth | services/iot-service/src/telemetry-processor.ts:91-93 | the device's health exactly when it is known |
| Telemetry.TelemetryProcessor.CountsAddUp | services/iot-service/src/telemetry-processor.ts:171-181 | the three counts add up to the number of devices seen |
| LocationTracking.LocationOf | services/iot-service/src/location-tracker.ts:24-34 | the stored location keeps agent and coordinates, with `accuracy \|\| 0` and `timestamp \|\| Date.now()` |
| LocationTracking.Window | services/iot-service/src/location-tracker.ts:77-87 | exactly the locations within the time window are kept |
| LocationTracking.History | services/iot-service/src/location-tracker.ts:69-90 | corrected: the last `limit` locations in the window, none for a limit of 0 |
| LocationTracking.HistoryAsWritten | services/iot-service/src/location-tracker.ts:69-90 | the history as written (no contract of its own); HistoryAgreesForPositiveLimit, ZeroLimitReturnsEverything and NegativeLimitDropsOldest relate it to History |
| LocationTracking.HistoryAgreesForPositiveLimit | services/iot-service/src/location-tracker.ts:89 | for a positive limit the code as written returns the intended entries |
| LocationTracking.ZeroLimitReturnsEverything | services/iot-service/src/location-tracker.ts:89 | as written, `slice(-0)` returns the whole window where no entry was asked for |
| LocationTracking.NegativeLimitDropsOldest | services/iot-service/src/location-tracker.ts:89 | as written, a negative limit -k drops the k oldest entries of the window instead of returning none |
| LocationTracking.NonPositiveLimitExample | services/iot-service/src/location-tracker.ts:89 | concrete histories show it: limit 0 returns the one entry, limit -1 the newer of two |
| LocationTracking.RouteLimit | services/iot-service/src/routes.ts:82-87 | `parseInt(limit) \|\| 100` is never 0, and keeps any other parsed limit |
| LocationTracking.RouteLimitExamples | services/iot-service/src/routes.ts:82-87 | a missing or zero limit becomes 100, but "-5" arrives as -5 |
| LocationTracking.Candidates | services/iot-service/src/location-tracker.ts:92-112 | the agents within the radius, with their distances, and only those |
| LocationTracking.InsertPerm | services/iot-service/src/location-tracker.ts:113 | inserting an entry keeps every entry |
| LocationTracking.InsertSorted | services/iot-service/src/location-tracker.ts:113 | inserting into a sorted list keeps it sorted by distance |
| LocationTracking.SortByDistance | services/iot-service/src/location-tracker.ts:113 | the sorted entries are nearest first and a permutation of the input |
| LocationTracking.AtDistance | services/iot-service/src/location-tracker.ts:113 | the entries at one distance are no more than the input |
| LocationTracking.InsertAtDistance | services/iot-service/src/location-tracker.ts:113 | an inserted entry goes ahead of every entry at its own distance |
| LocationTracking.SortByDistanceStable | services/iot-service/src/location-tracker.ts:113 | the sort is stable: entries at the same distance keep their input order |
| LocationTracking.LocationTracker.constructor | services/iot-service/src/location-tracker.ts:17-18 | a new tracker holds no locations and no histories |
| LocationTracking.LocationTracker.ProcessLocationUpdate | services/iot-service/src/location-tracker.ts:20-63 | the agent's current location is replaced and appended to its history, which keeps the last 1000 |
| LocationTracking.LocationTracker.HistoryBounded | services/iot-service/src/location-tracker.ts:48-51 | every history holds at most 1000 locations and ends with the agent's latest report |
| LocationTracking.LocationTracker.GetAgentLocation | services/iot-service/src/location-tracker.ts:65-67 | the agent's location exactly when it is tracked |
| LocationTracking.LocationTracker.GetLocationHistory | services/iot-service/src/location-tracker.ts:69-90 | corrected: the last `limit` locations of the agent's history within the window (`History`), none for an untracked agent or a limit of 0 or less |
| LocationTracking.LocationTracker.GetNearbyAgents | services/iot-service/src/location-tracker.ts:92-116 | every tracked agent within the radius and only those, nearest first |
| LocationTracking.LocationTracker.GetTrackedAgentsCount | services/iot-service/src/location-tracker.ts:146-148 | the number of tracked agents |
| LocationTracking.LocationTracker.TrackedCountIsOrderLength | services/iot-service/src/location-tracker.ts:146-148 | each tracked agent appears once in the iteration order |
| LocationTracking.LastNPush | services/iot-service/src/location-tracker.ts:40-51 | a history holding the last 1000 locations still does after one more |
| RiskScoring.Clamp | services/ai-ml-service/app/risk_scorer.py:88 | `max(0, min(100, score))` lies in [0, 100] and keeps an in-range score |
| RiskScoring.LevelMonotone | services/ai-ml-service/app/risk_scorer.py:90-97 | a higher score never gives a lower level |
| RiskScoring.ApplyFactors | services/ai-ml-service/app/risk_scorer.py:32-85 | a None among the compared numbers raises; otherwise the rules applied in order from 50 give the specified unclamped score and the reasons of the rules that fired, in order |
| RiskScoring.ApplyAccountFactors | services/ai-ml-service/app/risk_scorer.py:34-64 | raises exactly when the account age or the transaction count is None; otherwise the KYC, account-age and history rules move the score by their specified deltas and append their reasons, in order |
| RiskScoring.ApplyActivityFactors | services/ai-ml-service/app/risk_scorer.py:66-85 | raises exactly when the average amount, the failure count or the dispute count is None; otherwise the average-amount, failed-transaction and dispute rules move the score by their specified deltas and append their reasons, in order |
| RiskScoring.Predict | services/ai-ml-service/app/risk_scorer.py:27-120 | TypeError exactly when a compared number is present as None (a missing key takes its default); otherwise the assessment: a score in [0, 100], its level, at least one reason |
| RiskScoring.PredictOutcome | services/ai-ml-service/app/risk_scorer.py:27-120 | `predict` as a whole (no contract of its own); Predict states when it raises and what it scores |
| RiskScoring.Dumped | services/ai-ml-service/app/main.py:66-72 | a sent field is kept; an omitted one is a None key, or no key under `exclude_none` |
| RiskScoring.SetDefault | services/ai-ml-service/app/feature_engineer.py:54-59 | a missing key gets the default; a present key, None included, is kept |
| RiskScoring.EngineerUserFeatures | services/ai-ml-service/app/feature_engineer.py:47-61 | filling in defaults neither creates nor removes a None among the compared numbers, and the three request numbers are always present |
| RiskScoring.AssessRiskAsWrittenRaises | services/ai-ml-service/app/main.py:138-165 | as written, the endpoint raises TypeError (answered 500) exactly when the request omits one of its three optional numbers |
| RiskScoring.AssessRiskAsWritten | services/ai-ml-service/app/main.py:138-165 | the endpoint as written (no contract of its own); AssessRiskAsWrittenRaises, MinimalRequestAsWrittenFails and AssessRiskAgrees state it |
| RiskScoring.MinimalRequestAsWrittenFails | services/ai-ml-service/app/main.py:138-165 | a request with only a user id and KYC flag is answered 500 |
| RiskScoring.AssessRiskAlwaysScores | services/ai-ml-service/app/main.py:138-165 | corrected: every request is scored, as if each omitted number were sent as 0 |
| RiskScoring.AssessRisk | services/ai-ml-service/app/main.py:138-165 | the corrected endpoint (no contract of its own); AssessRiskAlwaysScores and AssessRiskAgrees state it |
| RiskScoring.AssessRiskAgrees | services/ai-ml-service/app/main.py:138-165 | when all three numbers are sent, the corrected endpoint answers as the code as written |
| RiskScoring.EachDisputeAddsTen | services/ai-ml-service/app/risk_scorer.py:82-85 | each dispute adds 10 to the unclamped score |
| RiskScoring.UnverifiedLimit | services/ai-ml-service/app/risk_scorer.py:33-114 | without KYC the score is at least 45, so the level is never LOW and the limit at most 37 500 KES |
| RiskScoring.LimitRange | services/ai-ml-service/app/risk_scorer.py:99-114 | the credit limit lies between 2 500 and 150 000 KES |
| RiskScoring.BestCustomer | services/ai-ml-service/app/risk_scorer.py:27-120 | a verified, established, active, high-value customer with no failures or disputes scores 10, LOW, with the full limit |
| RiskScoring.DisputesMonotone | services/ai-ml-service/app/risk_scorer.py:82-97 | more disputes never lower the score or the level |
| FraudDetection.Fired | services/ai-ml-service/app/fraud_detector.py:34-73 | no more indicators are reported than there are rules |
| FraudDetection.FiredMembers | services/ai-ml-service/app/fraud_detector.py:34-73 | an indicator is reported exactly when it is a rule and fires |
| FraudDetection.Fires | services/ai-ml-service/app/fraud_detector.py:34-73 | each rule's condition (no contract of its own); FiredMembers, FiredFirstThree and UnusualTimeBounds state it |
| FraudDetection.Cap | services/ai-ml-service/app/fraud_detector.py:75 | `min(risk, 1.0)` is at most 1 and keeps a smaller risk |
| FraudDetection.Predict | services/ai-ml-service/app/fraud_detector.py:27-96 | the specified verdict: probability at most 1, fraud exactly from 0.7, and at least one reason |
| FraudDetection.Judge | services/ai-ml-service/app/fraud_detector.py:75-96 | the verdict from the fired indicators (no contract of its own); Predict, FraudNeedsThreeIndicators, FraudIsHighRisk, Clean and ThreeStrongIndicators state it |
| FraudDetection.ScoreRules | services/ai-ml-service/app/fraud_detector.py:30-73 | the rule loop collects the indicators that fire, in rule order, and the sum of their weights |
| FraudDetection.TotalWeightAppend | services/ai-ml-service/app/fraud_detector.py:34-73 | weights add up over concatenated lists |
| FraudDetection.TotalWeight | services/ai-ml-service/app/fraud_detector.py:34-73 | the summed weights, in hundredths (no contract of its own); TotalWeightAppend and TotalWeightBound state its properties |
| FraudDetection.TotalWeightBound | services/ai-ml-service/app/fraud_detector.py:34-73 | no weight exceeds 0.3, so the total is at most 0.3 per indicator |
| FraudDetection.FraudNeedsThreeIndicators | services/ai-ml-service/app/fraud_detector.py:75-88 | a fraud flag needs at least three indicators |
| FraudDetection.FraudIsHighRisk | services/ai-ml-service/app/fraud_detector.py:77-88 | a flagged transaction is at least HIGH risk |
| FraudDetection.Clean | services/ai-ml-service/app/fraud_detector.py:75-95 | with no indicator the risk is 0, LOW, not fraud, and the reason says none were found |
| FraudDetection.NoneFired | services/ai-ml-service/app/fraud_detector.py:34-73 | no indicator is reported when no rule fires |
| FraudDetection.ThreeStrongIndicators | services/ai-ml-service/app/fraud_detector.py:34-88 | a high amount, an unusual time and a high velocity together are flagged (0.75) |
| FraudDetection.FiredFirstThree | services/ai-ml-service/app/fraud_detector.py:34-48 | those three rules fire in order and weigh 0.75 |
| FraudDetection.FiredAppend | services/ai-ml-service/app/fraud_detector.py:34-73 | the indicators of concatenated rule lists are the concatenation, in order |
| FraudDetection.UnusualTimeBounds | services/ai-ml-service/app/fraud_detector.py:98-109 | 22:00 and 06:00 are unusual, both bounds inclusive; just inside them is not; an unparsable time is not |
| Migrations.Blank | services/shared/migrations/src/utils.ts:10 | every character outside the ASCII letters and digits is replaced, the others kept, the length unchanged |
| Migrations.Collapse | services/shared/migrations/src/utils.ts:11 | collapsing underscore runs keeps the first character and adds none |
| Migrations.CollapseNoDouble | services/shared/migrations/src/utils.ts:11 | after collapsing no two underscores are adjacent |
| Migrations.SanitizedShape | services/shared/migrations/src/utils.ts:9-12 | a sanitised name is lower-case letters, digits and single underscores, and empty exactly when the input is |
| Migrations.LowerKeepsUnderscores | services/shared/migrations/src/utils.ts:12 | lower-casing neither adds nor removes underscores |
| Migrations.CollapseKeepsOthers | services/shared/migrations/src/utils.ts:11 | collapsing changes nothing but underscores |
| Migrations.BlankDropsNonAlnum | services/shared/migrations/src/utils.ts:10 | apart from the new underscores, blanking keeps exactly the letters and digits |
| Migrations.SanitizeKeepsAlnum | services/shared/migrations/src/utils.ts:9-12 | leaving underscores aside, the sanitised name is the input's letters and digits, in order, lower-cased |
| Migrations.CollapseSingle | services/shared/migrations/src/utils.ts:11 | a name with no double underscore is its own collapse |
| Migrations.SanitizeIdempotent | services/shared/migrations/src/utils.ts:9-12 | sanitising a sanitised name changes nothing |
| Migrations.SanitizeName | services/shared/migrations/src/utils.ts:9-12 | the name part of a migration (no contract of its own); SanitizedShape, SanitizeKeepsAlnum and SanitizeIdempotent state its properties |
| Migrations.GenerateMigrationName | services/shared/migrations/src/utils.ts:7-14 | the timestamp, '_' and the sanitised name (no contract of its own); GeneratedNameParses and EmptyNameRejected state its properties |
| Migrations.ParseAccepts | services/shared/migrations/src/utils.ts:95-108 | every name of the form digits, '_', a nonempty rest, '.ts' or '.js' parses to the digits' value and the rest |
| Migrations.ParseSound | services/shared/migrations/src/utils.ts:99-102 | every name that parses has that form: the parser accepts exactly what the pattern matches |
| Migrations.ParseMigrationName | services/shared/migrations/src/utils.ts:95-108 | the name parser (no contract of its own); ParseAccepts and ParseSound state that it accepts exactly what the pattern matches |
| Migrations.GeneratedNameParses | services/shared/migrations/src/utils.ts:7-14 | a generated name with its extension parses back to the timestamp and the sanitised name |
| Migrations.EmptyNameRejected | services/shared/migrations/src/utils.ts:7-14 | an empty name gives "<timestamp>_.ts", which the parser rejects |
| Migrations.NonEmpty | services/shared/migrations/src/utils.ts:72-73 | the words kept are nonempty pieces of the split |
| Migrations.CapitalizeAll | services/shared/migrations/src/utils.ts:74 | one capitalised word per word |
| Migrations.LowerAppend | services/shared/migrations/src/utils.ts:74 | lower-casing distributes over concatenation |
| Migrations.ConcatLower | services/shared/migrations/src/utils.ts:74-75 | up to case, capitalising words does not change their concatenation |
| Migrations.ConcatNonEmpty | services/shared/migrations/src/utils.ts:73-75 | dropping empty words does not change the concatenation |
| Migrations.ConcatSplit | services/shared/migrations/src/utils.ts:72-75 | joining the pieces of a split at ' ' is the text without its spaces |
| Migrations.BlankSpaceDropsNonAlnum | services/shared/migrations/src/utils.ts:71 | after blanking with spaces, removing the spaces leaves exactly the letters and digits |
| Migrations.PascalCaseLetters | services/shared/migrations/src/utils.ts:69-76 | up to case, the PascalCase name is exactly the input's letters and digits, in order |
| Migrations.CapitalizeShape | services/shared/migrations/src/utils.ts:74 | each word starts upper-case and goes on lower-case |
| Migrations.ToPascalCase | services/shared/migrations/src/utils.ts:69-76 | the PascalCase name (no contract of its own); PascalCaseLetters and CapitalizeShape state its properties |
| Migrations.FilterScripts | services/shared/migrations/src/utils.ts:88 | exactly the names ending in .ts or .js are kept |
| Migrations.LexTotal | services/shared/migrations/src/utils.ts:89 | the default sort order compares any two names |
| Migrations.InsertNamePerm | services/shared/migrations/src/utils.ts:89 | inserting a name keeps every name |
| Migrations.InsertNameSorted | services/shared/migrations/src/utils.ts:89 | inserting into a sorted list keeps it sorted |
| Migrations.SortNamesCorrect | services/shared/migrations/src/utils.ts:89 | sorting gives a sorted permutation |
| Migrations.MigrationFilesSorted | services/shared/migrations/src/utils.ts:81-90 | the listing's .ts and .js files, each as often as listed, and sorted |
| Migrations.GetMigrationFiles | services/shared/migrations/src/utils.ts:81-90 | the filtered, sorted listing (no contract of its own); MigrationFilesSorted states it |
| AgentService.BuildPoint | services/agent-service/src/services/AgentService.ts:42-48 | a point is written exactly when both coordinates are given |
| AgentService.ParsePoint | services/agent-service/src/services/AgentService.ts:50-64 | a missing or empty point reads as no location |
| AgentService.ScanFraction | services/agent-service/src/services/AgentService.ts:55 | the number pattern reads the whole digits, the point and the fraction digits, and stops before the rest |
| AgentService.ScanWhole | services/agent-service/src/services/AgentService.ts:55 | without a point the pattern reads exactly the whole digits |
| AgentService.ScanRender | services/agent-service/src/services/AgentService.ts:55-62 | reading a rendered number back gives that number and leaves the rest |
| AgentService.PointRoundTrip | services/agent-service/src/services/AgentService.ts:42-64 | reading back a built point gives the coordinates it was built from, latitude and longitude in place |
| AgentService.ParsePointRejects | services/agent-service/src/services/AgentService.ts:50-58 | null, "" and text with no point in it read as no location |
| AgentService.ValueExample | services/agent-service/src/services/AgentService.ts:61-62 | `Number("-1.25")` is -1.25 |
| AgentService.MapAgent | services/agent-service/src/services/AgentService.ts:66-74 | the view keeps the row and carries its location read back as coordinates |
| AgentService.EmptyUpdateKeeps | services/agent-service/src/services/AgentService.ts:123-151 | an update that gives nothing leaves the agent as it was |
| AgentService.MergeFields | services/agent-service/src/services/AgentService.ts:129-146 | for each of business name and type, licence number, address, county, active flag and the three rendered decimals (daily and monthly limits, commission rate): a field given replaces the stored one and a field left out keeps it; ids and code never change; the location moves only when both coordinates are given, and then reads back as them |
| AgentService.MergeIdempotent | services/agent-service/src/services/AgentService.ts:129-146 | applying the same update twice is the same as once |
| AgentService.Merge | services/agent-service/src/services/AgentService.ts:129-146 | the row `updateAgent` saves (no contract of its own); MergeFields, EmptyUpdateKeeps and MergeIdempotent state it, and AgentRepository.UpdateAgent stores it |
| AgentService.NewAgent | services/agent-service/src/services/AgentService.ts:82-94 | the row `createAgent` saves (no contract of its own); NewAgentLocation and AgentRepository.CreateAgent state it |
| AgentService.NewAgentLocation | services/agent-service/src/services/AgentService.ts:82-94 | a new agent's location reads back as the coordinates it was created with, or as none if one is missing |
| AgentService.AgentRepository.constructor | services/agent-service/src/services/AgentService.ts:38-40 | a new repository holds no agents |
| AgentService.AgentRepository.CreateAgent | services/agent-service/src/services/AgentService.ts:76-99 | a taken code is 'Agent code already exists' and nothing changes; otherwise the new row is stored under its id and agent codes stay unique |
| AgentService.AgentRepository.GetAgentById | services/agent-service/src/services/AgentService.ts:114-121 | the mapped agent exactly when the id is stored |
| AgentService.AgentRepository.UpdateAgent | services/agent-service/src/services/AgentService.ts:123-151 | an unknown id is 'Agent not found' and nothing changes; otherwise the merged row replaces the old one and the others are kept |
| SessionManagement.Get | services/shared/auth-middleware/src/services/SessionManager.ts:71-76 | `GET` returns the stored value exactly while its key has not expired |
| SessionManagement.SetExThenGet | services/shared/auth-middleware/src/services/SessionManager.ts:50-54 | a value written with a positive TTL reads back until the TTL runs out and not after; other keys are untouched |
| SessionManagement.DefaultLifetimes | services/shared/auth-middleware/src/services/SessionManager.ts:21-176 | with the default TTLs a session reads back for eight hours, an OTP for ten minutes and a reset token for an hour, to the millisecond, and not after |
| SessionManagement.SessionManager.constructor | services/shared/auth-middleware/src/services/SessionManager.ts:21-28 | a new manager keeps the given session TTL and holds no keys |
| SessionManagement.SessionManager.CreateSession | services/shared/auth-middleware/src/services/SessionManager.ts:33-58 | a TTL of 0 or less is refused and changes nothing; otherwise the session is stored for the TTL and its id added to the user's set |
| SessionManagement.SessionManager.ValidateSession | services/shared/auth-middleware/src/services/SessionManager.ts:63-66 | valid exactly while the session key is present and unexpired |
| SessionManagement.SessionManager.GetSession | services/shared/auth-middleware/src/services/SessionManager.ts:71-76 | the session's data exactly when it is valid |
| SessionManagement.SessionManager.UpdateActivity | services/shared/auth-middleware/src/services/SessionManager.ts:81-91 | a live session gets the new activity time and a fresh TTL; a missing or expired one changes nothing |
| SessionManagement.SessionManager.InvalidateSession | services/shared/auth-middleware/src/services/SessionManager.ts:96-102 | the key is deleted either way, a live session also leaves its user's set, and the session is no longer valid |
| SessionManagement.SessionManager.InvalidateUserSessions | services/shared/auth-middleware/src/services/SessionManager.ts:107-117 | every session in the user's set is deleted, then the set; no session of that user remains |
| SessionManagement.SessionManager.GetUserSessions | services/shared/auth-middleware/src/services/SessionManager.ts:122-134 | exactly the live sessions among the user's set, one entry per live session id, so never more than the members |
| SessionManagement.SessionManager.BlacklistToken | services/shared/auth-middleware/src/services/SessionManager.ts:139-141 | a TTL of 0 or less is refused; otherwise the token is blacklisted for the TTL |
| SessionManagement.SessionManager.IsTokenBlacklisted | services/shared/auth-middleware/src/services/SessionManager.ts:146-149 | blacklisted exactly while the token's key is unexpired |
| SessionManagement.SessionManager.StoreOTP | services/shared/auth-middleware/src/services/SessionManager.ts:154-156 | a TTL of 0 or less is refused; otherwise the OTP is stored for the TTL |
| SessionManagement.SessionManager.VerifyOTP | services/shared/auth-middleware/src/services/SessionManager.ts:161-169 | true exactly when the stored, unexpired OTP is the one given, and then it is deleted, so it works once |
| SessionManagement.SessionManager.StoreResetToken | services/shared/auth-middleware/src/services/SessionManager.ts:174-176 | a TTL of 0 or less is refused; otherwise the token hash is stored for the TTL |
| SessionManagement.SessionManager.VerifyResetToken | services/shared/auth-middleware/src/services/SessionManager.ts:181-188 | true exactly when the stored, unexpired hash is the one given, and then it is deleted |
| OfflineQueue.SyncDropsPrefix | mobile-app/src/services/offline.ts:67-86 | syncing is FIFO: the queue left is empty, or a suffix of the queue whose head has one more retry counted |
| OfflineQueue.Sync | mobile-app/src/services/offline.ts:67-86 | the queue a sync run leaves (no contract of its own); SyncDropsPrefix, SyncAllDelivered, FailureKeepsQueue and SyncKeepsRetriesBelowMax state its properties, OfflineService.SyncQueue that the loop computes it |
| OfflineQueue.SyncAllDelivered | mobile-app/src/services/offline.ts:67-86 | when every post goes through, the queue empties |
| OfflineQueue.FailureKeepsQueue | mobile-app/src/services/offline.ts:74-84 | a failed post with retries to spare loses nothing and counts the retry |
| OfflineQueue.SyncKeepsRetriesBelowMax | mobile-app/src/services/offline.ts:76-81 | every waiting transaction stays below three failed attempts |
| OfflineQueue.TransactionId | mobile-app/src/services/offline.ts:43 | the id is the time in decimal, '_', then the random suffix, each readable back |
| OfflineQueue.OfflineService.constructor | mobile-app/src/services/offline.ts:15-27 | a new service is online with an empty queue and no sync running |
| OfflineQueue.OfflineService.AddToQueue | mobile-app/src/services/offline.ts:41-58 | the transaction joins the back with no retries; online and not already syncing, the queue is then synced |
| OfflineQueue.OfflineService.SyncQueue | mobile-app/src/services/offline.ts:60-89 | nothing happens while syncing or offline; otherwise the queue becomes its specified sync and the run ends with `isSyncing` cleared |
| OfflineQueue.OfflineService.GetQueue | mobile-app/src/services/offline.ts:104-106 | a copy of the waiting transactions |
| OfflineQueue.OfflineService.ClearQueue | mobile-app/src/services/offline.ts:108-111 | the queue is emptied and nothing else changes |
| OfflineQueue.OfflineService.NetworkChanged | mobile-app/src/services/offline.ts:29-38 | online exactly when `isConnected` is true; coming back online syncs the queue; otherwise the queue and the sync flag are kept |
| InputValidation.InputValidator.constructor | services/iot-service/src/utils/input-validator.ts:54-56 | a new validator holds the data, no errors, and the data as its sanitised copy |
| InputValidation.RemoveTraversalsFully | services/iot-service/src/utils/input-validator.ts:354 | corrected: repeating the traversal pass until nothing changes leaves no traversal and adds no character |

## Left out

- OpenCV image decoding, filtering, contour finding, the Laplacian and Haar face detection: native image work, modelled only as the measurements the processor reads from it.
- The template cipher, JWT, bcrypt and sha256: foreign library calls, given as parameters.
- The biometric service's lifespan, health endpoints and logging: process plumbing with no decision logic.
- Floating point: float32/float64 scores, risk sums and card amounts are exact reals, rationals or integers in minor units, so rounding error is not modelled. The three-decimal rounding of confidence is modelled on the exact similarity (see the Round3 line).
- The validate*Input helpers and metadata checks of input-validator.ts (lines 145-273): they only chain validator rules already modelled by `InputValidator`.
- sanitizeForSQL (input-validator.ts 276-301): the source marks it as a last resort beside parameterised queries, and it is not among the operations modelled.
- Regular-expression metacharacters inside permission patterns: permission codes are upper-case letters, '-' and '_', so only '*' carries meaning.
- The order of JavaScript object keys beyond insertion order, and `for...in` over inherited properties: request bodies are plain parsed JSON.
- The `validator` library: `escape` is a parameter and `normalizeEmail` is not modelled.
- JavaScript's coercion of strings to numbers in range checks: a parameter that returns None for NaN.
- The haversine formula: the distance is a parameter, and only the radius filter and the ordering are proved.
- checkAlerts's side effects and the health object returned by reference: logging and aliasing are not modelled; reads return values.
- The try/catch around malformed MQTT and telemetry messages: a message is given already parsed.
- Date parsing of query bounds: the caller passes times in milliseconds.
- listAgents: its order comes from the database's `ORDER BY created_at`, which the map model does not hold.
- createMigration: writing the template file to disk is I/O.
- Number.prototype.toString's exponent form and parseInt's precision limit: numbers are decimal digit strings of ordinary size.
- The JSON round trip that turns a session's Date fields into strings: sessions are stored as values.
- The Redis connection and its close: each key family is a map; TTLs are in the units the caller passes, and expiry is checked against `now`.
- The per-user session sets keep ids of sessions that expired on their own: modelled as in the source, and only removed by the invalidation calls.
- Offline storage (saveQueue/loadQueue) and the service's initialize: device storage I/O.
- Concurrent sync runs, and the network state changing in the middle of a run: a sync run is sequential with `isOnline` fixed. The un-awaited sync that addToQueue starts is modelled as running to completion.
- processTransaction's branch for an unknown transaction type: the type is a two-valued datatype.
- The `is_active` column's default on insert and the race between findOne and insert in createAgent: the database's behaviour is a parameter or left out.
- The payment service's enrollFingerprint/enrollPalm and palm features (extractPalmFeatures, principal lines, wrinkles): they only encrypt and store.
- BiometricMatcher.generateHash: a sha256 call, taken as a parameter.
- The `sanitize` middleware wrapper (sanitize.ts 74-93): Express request plumbing around `SanitizeInput`.
- Virtual card create, findById, getCardDetails, updateStatus, generateCVV, generateAuthCode and the card encryption: database rows, randomness and the cipher.
- The first card service's createVirtualCard, getCardDetails and generateCardNumber: the same as the second service's Mastercard case, which is modelled.
- Wallet create, find and getTransactions: single-row reads and inserts.
- The agent float's getFloat, the activity-log insert, getStatistics and getActivities: plain reads and inserts.
- The ledger anchor endpoint and the cron job performAnchor: network and blockchain calls. Only the 64-hex-character check on anchor roots is modelled.
- MQTT connect, publish and disconnect: the network client is reduced to a `connected` flag and the SUBACK outcome.
- M-Pesa getAccessToken, initiateSTKPush and initiatePayment: network calls. The integration service's formatPhoneNumber is the same code as the M-Pesa service's and is modelled once.
- LowerAll: lower-cases ASCII letters only. JavaScript's `toLowerCase` folds every Unicode letter (U+212A KELVIN SIGN becomes 'k'), which the model does not capture.
- SensitiveFieldsGone: removal is proved for keys equal to a listed name up to ASCII case. A key that only Unicode case folding maps to a listed name is not covered.
- StoreTemplate: uses the corrected upsert, which makes a re-enrolled row active again. The upsert as written is `UpsertRowAsWritten`, and `ReenrolAsWrittenStaysHidden` states its failure.
- Verify: answers through the corrected `ErrorResponse`, so the 404 reaches the client. As written the handler answers 500 (`ErrorResponseAsWritten`, `NotEnrolledAsWrittenIs500`).
- Enroll: answers through the corrected `ErrorResponse` and stores with the corrected upsert. As written a non-image is answered 500 (`NonImageAsWrittenIs500`) and a re-enrolled row stays inactive (`ReenrolAsWrittenStaysHidden`).
- HandleMessage: dispatches with the corrected topic filter, where '#' matches deeper levels. The filter as written is `TopicMatchesAsWritten`, and `HashAsWrittenMissesDeeperTopics` states its failure.
- GetLocationHistory: returns the corrected `History`, empty for a limit of 0 or less. The code as written is `HistoryAsWritten` (`ZeroLimitReturnsEverything`, `NegativeLimitDropsOldest`).
- QueryTransaction: a failed token request (MpesaService.ts 127, before the `try`) rejects the promise rather than answering failed; the model covers only the query POST and its answer.
- CreditWallet: credits any amount, as `creditWallet` does (Wallet.ts 55-104 checks nothing), so a negative credit makes the balance negative; the ledger invariant ties each balance to its logged flow and does not claim non-negative balances.
- CreditFloat: keeps the book valid, non-negative floats included, only for a credit of 0 or more; `creditFloat` (Agent.ts 66-111) checks no amount, and a negative credit can make the float negative.
- TopUpCard: keeps the balances non-negative only when `amount * exchangeRate` is not negative. The method accepts any amount; the HTTP controller that rejects amounts of 0 or less is not part of this model.
- Round3: rounds the exact real similarity, with ties to even as Python rounds exact halves. Python's `round(similarity, 3)` rounds the double, which is never exactly half-way between thousandths (0.0005 is stored slightly above the half and gives 0.001), so the tie branch never applies to the source's values, and a similarity within rounding error of a half-thousandth may round the other way.
- NextKeepsInv: holds when each `execute` runs to completion before the next starts. `execute` is async (circuitBreaker.ts 35-57): a success that resolves after overlapping failures have opened the breaker sets failureCount to 0 while the state stays OPEN, which breaks "OPEN implies failureCount at least the threshold". Interleaved calls are not modelled.
- Execute: each call is modelled as atomic, so the invariant it keeps assumes calls do not overlap (see the NextKeepsInv line).
- Predict: fraud weights are summed as exact hundredths. Python sums float weights, and three of the 256 rule combinations (amount + new account + location + device; unusual time + new account + round amount + location + device; amount + new account + round amount + amount ratio) sum to 0.7999999999999999, which the source reports as HIGH with risk_score 79.99999999999999, where the model gives CRITICAL with 80. `is_fraud` agrees on every combination.
- MaskPII: lengths and the kept suffix count characters (code points), where JavaScript's `length` and `slice` count UTF-16 code units: `maskPII("a😀b", 1)` is "***b" in JavaScript and "**b" in the model. MaskPIIAsWritten counts the same way.
- MinLength: `length` counts code points, where JavaScript counts UTF-16 code units, so "😀" has length 2 in JavaScript and passes `minLength(2)` there but not in the model.
- MaxLength: counts code points in the same way as MinLength, so a string with characters outside the Basic Multilingual Plane can pass `maxLength` in the model and fail it in JavaScript.
- Get, StoreTemplate, Deactivate: user ids are opaque strings. The `user_id UUID NOT NULL` column (database_service.py 45) makes each query raise for an id that is not a UUID, which the source re-raises and main.py answers 500; the model stores and finds such ids.
- NewAgent, Merge: a DTO field given as null is not modelled (`null.toString()` throws; a null latitude with a longitude writes "(lon,null)"), and coordinates are assumed to be the decimal strings `toString` produces, so non-canonical forms such as "-0" or "007" are left out.
- The sort of migration file names compares Dafny characters, where JavaScript compares UTF-16 code units. The two agree on the ASCII names migrations use.

## Findings

| source | as written | input that shows it | evidently intended | confidence | as-written member | corrected member |
|---|---|---|---|---|---|---|
| services/biometric-service/main.py:75-110 | the 400 (not an image) and 404 (not enrolled) HTTPExceptions are raised inside the `try` and caught by `except Exception`, which answers 500 | an upload with content type `text/plain`; a verification for a user with no template | 400 and 404 reach the client | not executed | BiometricApi.NonImageAsWrittenIs500 | BiometricApi.ErrorResponse |
| services/biometric-service/app/services/biometric_processor.py:59-91 | `_require_opencv`'s RuntimeError is raised inside the `try` and re-raised as ValueError, so main.py's 503 branch never sees it and the answer is 500 | any enrolment while OpenCV is unavailable | 503 Service Unavailable, as main.py's `except RuntimeError` intends | not executed | BiometricApi.OpenCvMissingAsWrittenIs500 | BiometricApi.OpenCvMissingIs503 |
| services/biometric-service/app/services/database_service.py:61-70 | the ON CONFLICT DO UPDATE sets data, quality and updated_at but not is_active | enrol, deactivate, enrol again: the fetch still returns None | re-enrolment makes the template active again | not executed | TemplateStore.ReenrolAsWrittenStaysHidden | TemplateStore.ReenrolIsVisible |
| services/iot-service/src/mqtt-broker.ts:104-114 | the level-count check runs before '#' is reached, so '#' only matches topics with exactly as many levels as the filter | filter `eazepay/#` and topic `eazepay/devices/d1/telemetry` | '#' matches the parent level and any number of child levels (section 4.7.1.2 of MQTT 3.1.1) | not executed | MqttBroker.HashAsWrittenMissesDeeperTopics | MqttBroker.HashMatchesParentAndChildren |
| services/iot-service/src/utils/input-validator.ts:349-369 | `../` is removed in one pass and the leading separator is removed once | `....//` gives `../`; `//etc` gives `/etc` | no traversal sequence and no leading separator remain | not executed | InputValidation.SanitizePathAsWrittenLeaks | InputValidation.SanitizePath |
| services/shared/validation/src/middleware/sanitize.ts:98-109 | keys are lower-cased before the lookup, but the default list holds `apiKey` | the object `{"apiKey": "k"}` keeps its `apiKey` | every listed field is removed whatever its case | not executed | SharedSanitize.ApiKeySurvivesAsWritten | SharedSanitize.SensitiveFieldsGone |
| services/iot-service/src/location-tracker.ts:75-89 | `slice(-limit)` with limit 0 is `slice(0)`, the whole history; a negative limit -k, which the routes pass on for `?limit=-5`, is `slice(k)` and drops the oldest k | a history of one location read with limit 0; a history of two read with limit -1 | a limit of 0 or less returns no entries | not executed | LocationTracking.NonPositiveLimitExample | LocationTracking.History |
| services/ai-ml-service/app/main.py:138-165 | `request.dict()` keeps each omitted optional number as a None key, `setdefault` leaves it, and `>` on None raises TypeError, answered 500 | a request with only `user_id` and `kyc_verified` | omitted numbers take their defaults of 0 | not executed | RiskScoring.MinimalRequestAsWrittenFails | RiskScoring.AssessRiskAlwaysScores |
| services/identity-service/src/utils/security.ts:219-223 | with visibleChars 0, `slice(-0)` appends the whole value after the mask | maskPII("secret", 0) is "******secret" | all characters masked, length preserved | not executed | Permissions.MaskPIIZeroLeaks | Permissions.MaskPII |
