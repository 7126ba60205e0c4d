# Weverse signup pipeline — a Dafny model

The repository is a bot that creates Weverse accounts. For each account it:

- issues an email address;
- draws a password and a nickname;
- fills the four-step signup form in a browser;
- confirms the address through a Gmail mailbox;
- logs in, enters a mailed one-time code when a challenge appears, and reads
  the account's WID (its Weverse ID) from the user API responses the page
  receives on the my-page.

Every account has a status. The creator keeps the accounts that passed the
form, and counts and filters them. Three command-line scripts check their
arguments and run one account or a batch.

This project models that core and proves its properties:

- `Account` (account.dfy): the eleven status values, the classification
  into completed and failed, the `AccountInfo` record, and the construction
  checks of the creation configuration.
- `Helpers` (helpers.dfy):
  - password generation, including CPython's Fisher–Yates shuffle;
  - nicknames, the progress bar, file-name sanitising, masking;
  - duration formatting and status emojis;
  - the statistics loop, with its dictionaries of counts.
- `EmailGeneration` (email_generator.dfy):
  - the QA address loop;
  - the four dot-insertion strategies of the Gmail dot trick and the
    search over 100 attempts with its fallback;
  - the issued-address set.
- `Gmail` (gmail_service.dfy):
  - reading a message body;
  - the six-digit code regexes, on ASCII digits, with the later patterns
    folded into the plain one (see "## Left out");
  - the tiers of the link search;
  - the newest-message rule of the link pass;
  - the code passes and the "latest code" lookup.
- `Weverse` (weverse_service.dfy):
  - the signup steps;
  - the login with its challenge check;
  - the twenty one-second WID checks;
  - the handler for user API responses;
  - the challenge path.
- `Creator` (account_creator.dfy):
  - the per-account pipeline and where it can end;
  - the batch loop;
  - the account list with its filters and statistics.
- `MultipleAccountsScript`, `AutomationScript` and `SingleAccountScript`:
  the argument checks of the three scripts, the batch loop that can
  continue after an error, and the one-off creation at a given address.

Everything the program gets from outside becomes an input:

- the browser pages;
- the Gmail listings;
- random draws;
- the clock.

Each such input is a value, or a function from pass or attempt number to a
value. Objects whose fields the program updates (`AccountInfo`,
`EmailGenerator`, `GmailService`, `WeverseAccountCreator` and the two
script classes) are classes whose methods state their new state. Loops are
`while` loops with invariants, each proved against a function that
specifies it.

Two behaviours of the code are easy to misread; the model follows the
code as written:

- `find_verification_code_after_time` does not pool codes across passes.
  Each pass chooses only among its own messages (gmail_service.py:114).
- The challenge path enters the latest code of five messages, with no time
  bound.

## Model

| member | source | states |
|---|---|---|
| Account.ValueInjective | src/models/account.py:10-22 | Distinct statuses have distinct string values |
| Account.CompletedClassification | src/models/account.py:54-56 | A status counts as completed exactly when it is "completed" |
| Account.FailedClassification | src/models/account.py:58-69 | A status counts as failed exactly when it is one of the seven failure statuses; the other four are not failed |
| Account.CompletedExcludesFailed | src/models/account.py:54-69 | No status string is both completed and failed |
| Account.PostInit | src/models/account.py:37-41 | Construction gives a creation time (keeping a non-empty one), sets the update time to now, and changes no other field |
| Account.DictRoundTrip | src/models/account.py:71-78 | Loading a saved record gives back the same record, with only the update time renewed |
| Account.AccountInfo.constructor | src/models/account.py:25-41 | A new account has no WID and status "created"; both times are the one clock reading the constructor is given (the source reads the clock twice, so its two times may differ by a tick) |
| Account.AccountInfo.FromDict | src/models/account.py:75-78 | An account loaded from a dictionary holds the dictionary's fields after the post-init step |
| Account.AccountInfo.UpdateStatus | src/models/account.py:43-46 | Only the status and the update time change |
| Account.AccountInfo.SetWid | src/models/account.py:48-52 | Setting the WID also makes the status "completed" and renews the update time; nothing else changes |
| Account.Snapshot | src/models/account.py:71-73 | One dictionary per account of the list |
| Account.SnapshotElements | src/models/account.py:71-73 | The i-th dictionary is the `to_dict` of the i-th account (`Account.SnapshotAt` for one position) |
| Account.CountsBounded | src/core/account_creator.py:365-368 | Completed plus failed accounts never exceed the total, so "pending" is never negative |
| Account.CompletedRecords | src/core/account_creator.py:355-357 | The records at exactly the completed positions of the input, in input order: its length is the completed count, and its k-th record is the input record at the k-th completed position |
| Account.FailedRecords | src/core/account_creator.py:359-361 | The records at exactly the failed positions of the input, in input order: its length is the failed count, and its k-th record is the input record at the k-th failed position |
| Account.PassingIndicesExact | src/core/account_creator.py:355-361 | The positions a filter keeps are exactly those whose status passes, each once, in increasing order |
| Account.CompletedRecordsCount | src/core/account_creator.py:355-357 | Every completed record appears in the filtered list as often as in the input, and no other record appears |
| Account.FailedRecordsCount | src/core/account_creator.py:359-361 | Every failed record appears in the filtered list as often as in the input, and no other record appears |
| Account.NewConfig | src/models/account.py:103-112 | A configuration is accepted exactly when "real" has a base email, the count is positive and the delay is not negative; otherwise the first failing check's error is reported |
| Account.OtherEnvironmentsAccepted | src/models/account.py:103-112 | Any environment other than "real" (not only "qa") passes construction |
| Helpers.GeneratePassword | src/utils/helpers.py:19-46 | A custom password is returned as given; otherwise the password has an upper-case letter, a lower-case letter, a digit and a symbol, uses only the allowed characters, and is a permutation of the drawn characters |
| Helpers.Shuffle | src/utils/helpers.py:45 | `random.shuffle` swaps each position, from the last down to 1, with a drawn earlier or equal one; the result has the same length and is a permutation of the input |
| Helpers.ShuffledGood | src/utils/helpers.py:27-46 | Any permutation of one upper-case letter, one lower-case letter, one digit, one symbol and 4–8 allowed characters is a password of 8–12 allowed characters with each class present |
| Helpers.GenerateNickname | src/utils/helpers.py:49-59 | A custom nickname gets "_" and the index in decimal, zero-padded to two digits and with no other leading zero, only for a positive index; otherwise "Member_" plus six random lower-case letters or digits |
| Helpers.TruncDiv | src/utils/helpers.py:193 | The truncation toward zero of the exact quotient, equal to floor division for non-negative operands; the source truncates a float product instead (see "## Left out") |
| Helpers.ProgressBarShape | src/utils/helpers.py:187-198 | The bar is width + 2 characters, in brackets, with width·current // total cells "=" (exact arithmetic, see "## Left out") and the rest "-" |
| Helpers.SanitizeFilename | src/utils/helpers.py:201-206 | The loop replaces each invalid file-name character with "_" and leaves the others alone |
| Helpers.SanitizeIdempotent | src/utils/helpers.py:201-206 | A sanitised name holds no invalid character, and sanitising it again changes nothing |
| Helpers.MaskSensitiveData | src/utils/helpers.py:226-230 | A text of two characters or fewer is entirely masked; a longer one keeps its first and last characters; the length is kept |
| Helpers.DurationParts | src/utils/helpers.py:154-159 | Seconds split into hours, minutes below 60 and seconds below 60 that add up to the input |
| Helpers.DurationUnique | src/utils/helpers.py:154-159 | That split is the only one with minutes and seconds in range |
| Helpers.FormatDurationForms | src/utils/helpers.py:149-166 | Which textual form each input range gives: seconds alone under a minute, minutes and seconds under an hour, hours, minutes and seconds from an hour on, and the forms of negative durations |
| Helpers.StatusEmojiClassification | src/utils/helpers.py:169-184 | Every status has a known emoji; the cross marks exactly the failed statuses other than WID extraction failure, which gets the warning sign; the party popper marks completed |
| Helpers.UnknownStatusEmoji | src/utils/helpers.py:184 | A string that is no status gets the question mark |
| Helpers.MapSumIncrement | src/utils/helpers.py:254-260 | Adding one to a key's count adds one to the sum of the counts |
| Helpers.StatusMapStep | src/utils/helpers.py:254-257 | One more account keeps the status dictionary equal to the per-status counts |
| Helpers.EnvironmentMapStep | src/utils/helpers.py:258-260 | One more account keeps the environment dictionary equal to the per-environment counts |
| Helpers.TallyStep | src/utils/helpers.py:245-264 | One loop step keeps every tally equal to its count over the accounts seen so far |
| Helpers.CountAccount | src/utils/helpers.py:245-264 | The body of the statistics loop for one account keeps the tallies |
| Helpers.GetAccountStatistics | src/utils/helpers.py:233-272 | Total, completed and failed counts, pending as the rest, per-status and per-environment dictionaries whose entries are the counts and add up to the total, the creation times in order, and the success rate as completed × 100 / total (0 for no accounts) |
| EmailGeneration.EmailGenerator.constructor | src/services/email_generator.py:14-15 | A new generator has issued no address |
| EmailGeneration.EmailGenerator.GenerateQaEmail | src/services/email_generator.py:37-48 | The address is the first drawn prefix plus the QA domain that was not issued before; every earlier draw was already issued; it is added to the issued set |
| EmailGeneration.EmailGenerator.GenerateDotEmail | src/services/email_generator.py:50-82 | The result is the search over attempts on the issued set before the call; a result is added to the set; a raising attempt leaves the set alone |
| EmailGeneration.EmailGenerator.GenerateEmail | src/services/email_generator.py:17-35 | "qa" gives a fresh eight-character random prefix at the QA domain, added to the set; any other environment gives the dot-search pick or the error it raises, and an error leaves the set alone |
| EmailGeneration.NonQaRefusals | src/services/email_generator.py:28-53 | Any environment but "qa" and "real" is refused; "real" is refused without a base email, and for a base email whose lower-cased form does not contain "@gmail.com" |
| EmailGeneration.SplitAddress | src/services/email_generator.py:55 | A base email with exactly one "@" is its username, "@" and its domain, neither containing "@" |
| EmailGeneration.DotSearchHit | src/services/email_generator.py:57-76 | A strategy hit is the first attempt whose address was not issued; all attempts before it gave issued addresses |
| EmailGeneration.DotSearchFallback | src/services/email_generator.py:78-82 | The fallback is used only when all 100 attempts gave issued addresses |
| EmailGeneration.DotSearchPick | src/services/email_generator.py:57-82 | Every pick ends in "@" plus the base domain, and a strategy pick was not issued before |
| EmailGeneration.Attempt | src/services/email_generator.py:60-69 | Attempts 0–19 use the simple strategy, 20–49 the complex one, 50–79 a named pattern and 80–99 the systematic binary one |
| EmailGeneration.AttemptShape | src/services/email_generator.py:84-203 | Every strategy's variant, other than the timestamp form for short usernames, gives the username back without its dots and has no leading, trailing or doubled dot; the simple strategy inserts 2 to min(3, n − 1) dots and the complex one max_dots // 2 to max_dots |
| EmailGeneration.LastDigits | src/services/email_generator.py:78 | The timestamp suffix is at most k digits |
| EmailGeneration.InsertDots | src/services/email_generator.py:93-99 | Inserting at the sampled positions from the highest down puts a dot before each sampled character |
| EmailGeneration.SampleDotCount | src/services/email_generator.py:93-99 | The result holds exactly as many dots as positions were sampled |
| EmailGeneration.JoinWithDots | src/services/email_generator.py:108-114 | The short-username complex variant has a dot between every two characters |
| EmailGeneration.PatternEveryTwoChars | src/services/email_generator.py:155-162 | A dot before every character at an even position after the first |
| EmailGeneration.PatternAlternating | src/services/email_generator.py:164-171 | A dot before every character at an odd position |
| EmailGeneration.PatternFrontHeavy | src/services/email_generator.py:173-181 | Dots before the characters at positions 1 to n // 2; an empty username raises |
| EmailGeneration.PatternBackHeavy | src/services/email_generator.py:183-191 | Dots before the characters after position n // 2; an empty username raises |
| EmailGeneration.PatternMiddleHeavy | src/services/email_generator.py:193-203 | Dots before the characters of the middle third |
| EmailGeneration.PaddedBinary | src/services/email_generator.py:144 | The attempt number in binary, left-padded with zeros to the width |
| EmailGeneration.SystematicDots | src/services/email_generator.py:140-153 | A dot before character i + 1 exactly when bit i of the padded binary is 1; an empty username raises |
| EmailGeneration.DotsByBits | src/services/email_generator.py:147-152 | The loop over the bits builds exactly that variant |
| EmailGeneration.RemoveDotsDotted | src/services/email_generator.py:84-203 | Removing the dots of a dotted username gives the username back |
| EmailGeneration.DottedNoBadDots | src/services/email_generator.py:84-203 | A variant without a dot before the first character has no leading, trailing or doubled dot and starts with the username's first character |
| EmailGeneration.DottedDotCount | src/services/email_generator.py:84-203 | A variant holds one dot per marked position |
| EmailGeneration.EmailGenerator.ClearUsedEmails | src/services/email_generator.py:209-211 | The issued set is empty afterwards |
| EmailGeneration.EmailGenerator.GetUsedEmailsCount | src/services/email_generator.py:213-215 | The number of issued addresses |
| Gmail.GmailService.constructor | src/services/gmail_service.py:18-21 | A new service is not initialised |
| Gmail.GmailService.Initialize | src/services/gmail_service.py:23-30 | True exactly when a service was built; an exception leaves the service as it was |
| Gmail.ExtractEmailBody | src/services/gmail_service.py:364-382 | A multipart body is the decoded text/html and text/plain parts in order, other parts contribute nothing, and a payload without a body gives none |
| Gmail.FirstSixDigits | src/services/gmail_service.py:339-356 | The leftmost position from p holding six digits, or none anywhere after p |
| Gmail.FirstLabelled | src/services/gmail_service.py:339-356 | The leftmost "인증 코드" label followed by optional spaces and six digits, or none |
| Gmail.CodeInBody | src/services/gmail_service.py:333-362 | The code is six digits: after the leftmost labelled match if one exists, else the leftmost six digits; there is none exactly when the body has no six digits in a row |
| Gmail.ExtractVerificationCode | src/services/gmail_service.py:333-362 | A code found in a message is six digits; an unreadable body gives none |
| Gmail.FirstMatch | src/services/gmail_service.py:276-298 | The first match of the first pattern that matched, none exactly when no pattern matched |
| Gmail.FirstRedirect | src/services/gmail_service.py:300-314 | Of each pattern's first match, the one of the earliest pattern that contains "weverse" and a keyword; every earlier pattern's first match is rejected; none exactly when no such match exists |
| Gmail.FirstHref | src/services/gmail_service.py:316-324 | The first unescaped href that contains "weverse" and a keyword, with every earlier href rejected; none exactly when there is no such href |
| Gmail.LinkTiers | src/services/gmail_service.py:263-327 | The tiers are tried in order: buttons, domains, redirects, and the last-resort hrefs only when the redirect tier accepted nothing; a link from the last two tiers contains "weverse" and one of their keywords |
| Gmail.RedirectIsLastResort | src/services/gmail_service.py:311-322 | Every link the redirect tier accepts, the last-resort tier would accept too |
| Gmail.ExtractVerificationLink | src/services/gmail_service.py:263-331 | An unreadable body gives no link |
| Gmail.Take | src/services/gmail_service.py:51 | The API returns a prefix of the listing of at most maxResults messages |
| Gmail.LinkFoldNewest | src/services/gmail_service.py:56-86 | One link pass keeps the link of the first message with the greatest receive time among those received at most 300 s before it was examined and holding a link, or none when there is none |
| Gmail.ScanForLink | src/services/gmail_service.py:56-81 | The message loop of one pass computes that fold |
| Gmail.LinkFoldStaysEmpty | src/services/gmail_service.py:41-42 | A pass that found no link leaves the loop's state as it was before the pass |
| Gmail.LinkSearch | src/services/gmail_service.py:44-95 | The link of the first pass that found one, and none exactly when no pass did |
| Gmail.GmailService.FindVerificationEmail | src/services/gmail_service.py:32-95 | Uninitialised gives none at once; otherwise up to max_wait_minutes × 12 passes with 5 s of sleep after each empty one, and the answer is the first pass's link |
| Gmail.EligibleCodes | src/services/gmail_service.py:114-136 | The codes of one pass are six digits, at most one per message |
| Gmail.CollectCodes | src/services/gmail_service.py:114-136 | The message loop collects exactly the eligible codes |
| Gmail.NewestIndex | src/services/gmail_service.py:146-147 | The first entry with the greatest receive time, which is the head of the stable descending sort |
| Gmail.NewestIndexUnique | src/services/gmail_service.py:146-147 | That entry is the only one with both properties |
| Gmail.GmailService.FindVerificationCodeAfterTime | src/services/gmail_service.py:97-159 | Up to 24 passes; each takes the newest of its own codes received no earlier than 120 s before the given time; 5 s of sleep after each empty pass; none at all when uninitialised |
| Gmail.GmailService.GetLatestVerificationCode | src/services/gmail_service.py:161-211 | The newest code among five listed messages with no time bound; none when uninitialised or none is found |
| Weverse.SignupOutcomes | src/services/weverse_service.py:337-468 | The steps run in order and the first failure names the status; success means all four passed; the email step's three rejections all give "email_step_failed"; the marketing popup never changes the result |
| Weverse.FillSignupForm | src/services/weverse_service.py:23-58 | The account gets exactly that status, and success is returned exactly for pending verification |
| Weverse.NoWidValues | src/services/weverse_service.py:531-545 | A run of responses stores no WID exactly when none of them is a user API response with status 200 whose JSON has a "wid" |
| Weverse.HandledResponses | src/services/weverse_service.py:531-545 | Responses without a WID leave the account alone; otherwise the last WID is set and the status is "completed" |
| Weverse.ExtractWidFromResponse | src/services/weverse_service.py:531-545 | The listener applies one response to the account |
| Weverse.HandleArrivals | src/services/weverse_service.py:120-128 | Handling the responses of one second applies them in order |
| Weverse.WaitFrom | src/services/weverse_service.py:214-223 | The wait succeeds at the first of twenty checks that sees a WID; otherwise after all twenty; only the WID, status and update time change |
| Weverse.QuietWait | src/services/weverse_service.py:214-223 | When no response carries a WID, the wait changes nothing and succeeds only on a WID the account already had |
| Weverse.WaitForWid | src/services/weverse_service.py:214-223 | The polling loop realises that wait |
| Weverse.GoToMyPageAndExtractWid | src/services/weverse_service.py:114-227 | An unreachable my-page fails without waiting; otherwise the wait decides |
| Weverse.LoginStatuses | src/services/weverse_service.py:60-112 | A challenge leaves the account untouched; success means "completed" with a WID after a filled form and a reached my-page; any other failure is "wid_extraction_failed" |
| Weverse.LoginAndExtractWid | src/services/weverse_service.py:60-112 | The login's outcome and account are those of that specification; the logout is attempted exactly after a success in a batch |
| Weverse.ChallengeStatuses | src/services/weverse_service.py:288-335 | Without a code, or when it cannot be entered, nothing changes; success means "completed" with a WID |
| Weverse.HandleAdditionalVerificationAndExtractWid | src/services/weverse_service.py:288-335 | Enters the latest mailed code and then waits for the WID as that specification states |
| Creator.LoginStageOutcomes | src/core/account_creator.py:239-287 | The login stage ends in "completed" with a WID, "wid_extraction_failed" or "email_verification_failed"; a page showing only the OTP field that no longer shows the abnormal-access text ends in "wid_extraction_failed" |
| Creator.PipelineOutcomes | src/core/account_creator.py:85-106 | Login is tried only after a verified email; a failed form or verification stops with its status and no WID; "completed" always has a WID; only status, WID and update time change |
| Creator.CompletedAccounts | src/core/account_creator.py:355-357 | Only completed accounts of the input, as many as there are |
| Creator.FailedAccounts | src/core/account_creator.py:359-361 | Only failed accounts of the input, as many as there are |
| Creator.CompletedOrder | src/core/account_creator.py:355-357 | The k-th account the completed filter keeps is the account at the k-th completed position of the list, and there are as many as completed positions |
| Creator.FailedOrder | src/core/account_creator.py:359-361 | The k-th account the failed filter keeps is the account at the k-th failed position of the list, and there are as many as failed positions |
| Creator.CompletedAccountsExact | src/core/account_creator.py:355-357 | The completed filter keeps the accounts at the completed positions in list order, keeps every completed account, and its records are the completed records of the list |
| Creator.FailedAccountsExact | src/core/account_creator.py:359-361 | The failed filter keeps the accounts at the failed positions in list order, keeps every failed account, and its records are the failed records of the list |
| Creator.FilterKeepsPassing | src/core/account_creator.py:355-361 | A list taken at the passing positions holds every account whose status passes |
| Creator.WeverseAccountCreator.constructor | src/core/account_creator.py:21-35 | An empty account list, a fresh generator, and a Gmail service exactly when a Gmail account is configured |
| Creator.WeverseAccountCreator.InitializeServices | src/core/account_creator.py:39-52 | Always true; a Gmail service that fails to initialise is dropped |
| Creator.WeverseAccountCreator.ProcessGmailVerification | src/core/account_creator.py:204-237 | True exactly when the link search found a link |
| Creator.WeverseAccountCreator.HandleEmailVerification | src/core/account_creator.py:165-202 | Without Gmail the account stays pending; with it the status is verified or failed as the link search says |
| Creator.WeverseAccountCreator.LoginAndExtractWid | src/core/account_creator.py:239-287 | The account ends as the login stage specifies |
| Creator.WeverseAccountCreator.NextEmail | src/core/account_creator.py:61-64 | The email step raises exactly when the generator refuses (only outside "qa", when the dot search refuses); an address it returns is the fixed one, a fresh QA address not issued before, or the dot-search pick; the issued set grows by exactly that address, and not at all when the address is fixed or the step raised |
| Creator.WeverseAccountCreator.RunPipeline | src/core/account_creator.py:66-109 | The account ends as the pipeline specifies; it is kept exactly when the form passed; email, password and nickname are unchanged |
| Creator.WeverseAccountCreator.CreateSingleAccount | src/core/account_creator.py:54-130 | A context that cannot open raises; a refused email gives the "unknown" account with "creation_failed", not kept; otherwise the account has an address the generator may issue, a configured or well-formed password and the attempt's nickname (the index only in a batch), runs the pipeline, and is appended exactly when the form passed |
| Creator.WeverseAccountCreator.CreateMultipleAccounts | src/core/account_creator.py:132-163 | The services are initialised first: a configured Gmail service is kept and initialised when it connects and dropped otherwise; then the attempt loop runs, with the outcome Creator.WeverseAccountCreator.RunAttempts states |
| Creator.WeverseAccountCreator.RunAttempts | src/core/account_creator.py:145-153 | count attempts or fewer; the batch stops at the first attempt that raises; count − 1 delays when it runs to the end; the Gmail service is untouched; the accounts appended are, in attempt order, exactly those of the attempts whose context opened, whose address was not refused and whose form passed, each with an address issued against the addresses before it and run through the pipeline; each attempt issues at most one address (`Creator.BatchTrace`) |
| Creator.WeverseAccountCreator.GetSuccessfulAccounts | src/core/account_creator.py:355-357 | Exactly the completed accounts of the list in list order: the k-th is the account at the k-th completed position, every completed account appears, and their records are Account.CompletedRecords of the list's records |
| Creator.WeverseAccountCreator.GetFailedAccounts | src/core/account_creator.py:359-361 | Exactly the failed accounts of the list in list order: the k-th is the account at the k-th failed position, every failed account appears, and their records are Account.FailedRecords of the list's records |
| Creator.WeverseAccountCreator.GetStatistics | src/core/account_creator.py:363-377 | Success and failure counts, pending as the rest (never negative), the success rate of 0 for an empty list, and the environment |
| Creator.WeverseAccountCreator.ClearAccounts | src/core/account_creator.py:379-382 | Both the account list and the issued set are empty afterwards |
| Creator.WeverseAccountCreator.AddExistingAccount | src/core/account_creator.py:384-386 | The account is appended and nothing else changes |
| MultipleAccountsScript.ValidateArgs | scripts/create_multiple_accounts.py:63-85 | Each failing check's error exactly once, in check order, nothing else; at most one count error and one concurrency error |
| MultipleAccountsScript.CheckStep | scripts/create_multiple_accounts.py:63-85 | One more check keeps the errors equal to those of the failing checks so far, in order |
| MultipleAccountsScript.ResultMark | scripts/create_multiple_accounts.py:132 | The party popper for completed, the cross for failed, the hourglass otherwise |
| MultipleAccountsScript.MultiAccountCreator.constructor | scripts/create_multiple_accounts.py:91-94 | A fresh creator for the configuration |
| MultipleAccountsScript.MultiAccountCreator.CreateMultipleAccountsWithProgress | scripts/create_multiple_accounts.py:100-162 | The services are initialised first (Gmail kept and initialised when it connects, dropped otherwise); then the attempt loop runs, with the outcome MultipleAccountsScript.MultiAccountCreator.ProgressAttempts states |
| MultipleAccountsScript.MultiAccountCreator.ProgressAttempts | scripts/create_multiple_accounts.py:116-146 | count attempts unless one raises without continue-on-error, which stops the loop; delays between the attempts it goes through; the accounts appended are, in attempt order, exactly those of the attempts that opened, were not refused and passed the form, each built as the pipeline specifies; an attempt that raised and was passed over keeps nothing (`Creator.BatchTrace`) |
| AutomationScript.ValidateConfig | scripts/run_automation.py:137-153 | Each failing check's error exactly once, in check order; a missing or zero count fails, a missing delay counts as zero, and there is no upper bound on the count |
| AutomationScript.CommandLineSettings | scripts/run_automation.py:164-181 | Settings from the command line always have an environment; of the count check only a negative count can fail |
| AutomationScript.PromptsChoice | scripts/run_automation.py:164 | The prompts are used exactly when asked for or when the environment, or a non-zero count, is missing |
| SingleAccountScript.ValidateArgs | scripts/create_single_account.py:55-68 | Each failing check's error exactly once, in order; "real" with an email gives exactly two errors; "qa" with only an email gives none |
| SingleAccountScript.AcceptedArgs | scripts/create_single_account.py:55-68 | Accepted arguments name at most one source of addresses, and an explicit email never goes with "real" |
| SingleAccountScript.SingleAccountCreator.constructor | scripts/create_single_account.py:74-76 | A fresh creator for the configuration |
| SingleAccountScript.SingleAccountCreator.CreateSingleAccountWithEmail | scripts/create_single_account.py:78-92 | With an email the account gets exactly that address, the issued set is untouched, and the generator is restored afterwards; in both branches the outcome is that of `create_single_account` at index 0: raised or refused keeps nothing, otherwise the account runs the pipeline and is appended exactly when the form passed |

## Left out

- Browser automation (Playwright selectors, clicks, waits, timeouts, screenshots) is left out. Each page interaction is an input shown by what it did: `SignupPage`, `LoginPage`, `ChallengeCheck`, `MyPageVisit`, `Recheck`, `ChallengePage`.
- The Gmail API, OAuth and token files are left out. A poll is a `Listing` of fetched messages with receive times in milliseconds. Base64url decoding is the `decode` parameter. The link regexes are the `scan` parameter, which returns each pattern's `findall` result, with redirect matches already URL-unquoted.
- Randomness and the clock are inputs. These are the QA prefixes, the dot-position samples and pattern choices, the fallback suffix, the password characters with the shuffle's swap indices, the nickname suffix, and the timestamps.
- `generate_random_string` is only the property of its result (`IsRandomString`).
- EmailGeneration.EmailGenerator.GenerateQaEmail: the source redraws without bound and ends only with probability one. The model requires that some drawn prefix is fresh (`QaTerminates`).
- Floating point is left out. Success rates are integer ratios, and receive times stay in milliseconds instead of seconds.
- Helpers.ProgressBarShape: the percentage text after the bar is left out because it is float formatting.
- Helpers.TruncDiv: the source computes `int(width * (current / total))` in floating point; the model truncates the exact quotient `width * current / total`. The two differ where the double product rounds just below an integer: for width 50, current 29 and total 50 the double product is 28.999999999999996, so the source draws 28 '=' and the model 29 (likewise 58 of 100 at width 100).
- Helpers.ProgressBarShape: its count of '=' cells is that exact quotient, so it inherits the float difference just described for Helpers.TruncDiv.
- Text.Lower: lower-cases ASCII letters only, while Python's `str.lower()` follows Unicode. A non-ASCII capital such as the Kelvin sign U+212A lower-cases to "k" in Python, so a link with "weverse" and "\u212Aey=" passes the source's "key=" test but not Gmail.RedirectAccepted or Gmail.LastResortAccepted; the "@gmail.com" test of EmailGeneration.NonQaRefusals differs the same way.
- Helpers.MaskSensitiveData: the mask is a single character. The source's `mask_char` is a string and may be longer, in which case the masked text is longer than the input; that case is not modelled.
- Creator.CompletedAccounts: its own contract gives only the count and that every kept account is completed; the order and that every completed account is kept are stated by Creator.CompletedOrder with Account.PassingIndicesExact, and Creator.CompletedAccountsExact and Creator.WeverseAccountCreator.GetSuccessfulAccounts carry them.
- Creator.FailedAccounts: likewise, its order and completeness are stated by Creator.FailedOrder, and Creator.FailedAccountsExact and Creator.WeverseAccountCreator.GetFailedAccounts carry them.
- `print_live_statistics`, `print_account_summary` and `print_account_details` are left out because they only print. Their counts are those of Creator.WeverseAccountCreator.GetStatistics.
- `save_results`, `set_progress_callback` and `WeverseService.set_timeout` are left out. The first writes a file, the second stores a callback that only prints, and the third is a browser setting.
- `input_verification_code` and `_handle_login_complete_popup` are left out as browser work. Whether the code could be entered is the input `ChallengePage.codeEntered`.
- The Slack service, with `_send_final_notification` and `_send_summary_notification`, is left out because it is network I/O and printing. The creator is modelled without a Slack service.
- Async scheduling and the `max_concurrent` setting are left out; attempts run in sequence as the loops are written. Concurrency is checked only by the batch script's argument validation.
- Exceptions after an attempt's account exists (the `except` branch that sets "creation_failed") are left out, since any Playwright call may raise them. The model keeps the two exceptions that shape the results: `generate_email`'s refusal, which gives the "unknown" account, and a browser context that cannot be opened, which ends the attempt.
- The page queries of `_handle_additional_verification_check`, the marketing popup handled inline in `_fill_terms_step` and `_logout_for_next_account` are left out as browser work. What they find is an input (what the challenge check saw, whether the popup showed) or a flag (`loggedOut`); the decision taken on the challenge check is modelled by `Weverse.ChallengeNeeded`.
- Only string WID values in user API responses are modelled. A non-string JSON `wid` is left out.
- Listener responses that arrive outside the twenty WID checks are left out.
- `\d` and `isdigit` are modelled on ASCII digits only.
- Gmail.CodeInBody: the two later code patterns are not modelled as separate tiers. Each of them contains six digits, so it can match only where the plain six-digit pattern already did.
- The receive-time sort of the code search is modelled only by its head (`NewestIndex`), which is all the source reads.
- A pattern index outside `random.choice`'s range never occurs; `AttemptLocals` maps it to no address.
- The monkeypatched `generate_email` of the single-account script is modelled by the generator's `fixedEmail` field, which the script sets and restores.
- File I/O is left out: saving and loading account files, the logging setup and `ensure_directory_exists`.
- Command-line parsing, interactive prompts, printing and exit codes are left out. Only the validators and the choice between prompts and command line are modelled.
- `validate_email_format` is outside the modelled core.
