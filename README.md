# Ghost admin navigation menu — a Dafny model

This project models the logic of the Ghost admin navigation-bar component
(`gh-nav-menu`). It covers three parts:

- **The icon-style resolver** (`_setIconStyle`). It keeps the last icon it saw
  and picks the CSS class and inline style that show the site icon. An icon
  that starts with `http://` or `https://`, in any letter case, is used as
  it is. Anything else gets the default Ghost orb image and the class
  `gh-nav-logo-default`.
  - `IconStyle` holds it as values: `Resolve` and `Step`.
  - `NavMenuComponent.NavMenu` holds it as the component's fields, which
    `SetIconStyle` updates in place.
- **The deploy trigger and deploy-status poller** (`initDeployementScripts`),
  in `DeployPoller`.
  - Dialogs, requests and timers become `Effect`s appended to a trace.
  - The user's answer to the confirmation is a boolean input.
  - The server's replies are input values: one for the trigger request,
    then one per status poll, in order.
  - The self-rescheduling timer is a `while` loop (`PollUntilSettled`), proved
    against the specification function `PollTrace`.
- **The site-link decision and the derived flags**, in `Navigation`. These are
  `transitionToOrRefreshSite`, `isIntegrationRoute`, `isOnSite`,
  `showTagsNavigation`, `showMenuExtension` and `showBilling`. Each is a pure
  function of a `Snapshot` that holds:
  - the current route name;
  - the signed-in user's role flags;
  - the config's menu extension;
  - the billing setting.

`Text` holds the prefix test behind `/^https?:\/\//i`. It compares strings up to
ASCII letter case. Every pattern character is ASCII, and a JavaScript `i` match
without the `u` flag never lets a non-ASCII character match an ASCII one, so
this comparison is exact.

A status other than 0/1 is not treated as pending. The code (main.js:154-158)
neither alerts nor reschedules for such a status, so polling stops silently.
The model does the same: `Classify` yields `Unrecognised`, and
`UnrecognisedStatusStopsSilently` states the consequence.

## Model

| member | source | states |
|---|---|---|
| Text.StartsWithIgnoringCaseIff | ghost/admin/app/components/gh-nav-menu/main.js:139 | The anchored case-insensitive scan holds exactly when the subject is at least as long as the pattern and each leading character equals the pattern's up to case. |
| Text.CaseOfSubjectIrrelevant | ghost/admin/app/components/gh-nav-menu/main.js:139 | Changing the ASCII letter case of the icon string never changes the outcome of the scheme test (the `i` flag without `u`). This is not a claim about JavaScript's `toUpperCase`, which maps some non-ASCII letters, such as `ſ`, to ASCII ones. |
| IconStyle.Resolve | ghost/admin/app/components/gh-nav-menu/main.js:139-148 | The class is empty exactly when the icon is a non-empty string with an http(s) scheme. The style's URL is the icon itself in that case and the default orb URL otherwise. |
| IconStyle.StyleUrlRoundTrip | ghost/admin/app/components/gh-nav-menu/main.js:141 | Reading the URL back out of `background-image: url(...)` gives the URL that was put in. |
| IconStyle.ResolveOutcomes | ghost/admin/app/components/gh-nav-menu/main.js:139-148 | The exact outcomes: no class and `background-image: url(<icon>)`, or the class `gh-nav-logo-default` and the default orb URL. |
| IconStyle.SchemeInAnyCaseMatches | ghost/admin/app/components/gh-nav-menu/main.js:139 | A string that starts with `http://` or `https://` passes the test, and so do its upper- and lower-cased copies. |
| IconStyle.ResolveFallbackExamples | ghost/admin/app/components/gh-nav-menu/main.js:139-148 | `Resolve` gives the default class to null, undefined, the empty string, a relative path and an `ftp://` URL. |
| IconStyle.ResolvedStyleIsAbsolute | ghost/admin/app/components/gh-nav-menu/main.js:139-148 | Whatever the icon, the style always names a URL with an http(s) scheme. |
| IconStyle.FreshComponentIgnoresUndefined | ghost/admin/app/components/gh-nav-menu/main.js:35-36 | On a fresh component an `undefined` icon equals the remembered `_icon`, so the resolver returns early (lines 133-135) and the class and style stay empty; a `null` icon does get the default class. |
| IconStyle.StepSameIconIsNoOp | ghost/admin/app/components/gh-nav-menu/main.js:131-135 | With the icon seen last, the last icon, the class and the style are all unchanged. |
| IconStyle.StepRemembersIcon | ghost/admin/app/components/gh-nav-menu/main.js:137-148 | After any call the last icon seen is the current one. With a new icon, the class and style are the ones resolved for it. |
| IconStyle.StepIdempotent | ghost/admin/app/components/gh-nav-menu/main.js:131-137 | A second call with the same icon leaves the state the first call produced. |
| IconStyle.StepForgetsHistory | ghost/admin/app/components/gh-nav-menu/main.js:133-148 | Once a new icon is seen, the result does not depend on the earlier state. |
| NavMenuComponent.NavMenu.constructor | ghost/admin/app/components/gh-nav-menu/main.js:57-65 | A new component has no icon seen (undefined), an empty class and style, and the single shortcut `<ctrlOrCmd>+k` bound to `openSearchModal`. |
| NavMenuComponent.NavMenu.SetIconStyle | ghost/admin/app/components/gh-nav-menu/main.js:130-149 | The three icon fields become `Step` of their old values and the current icon. Nothing else changes. With the icon seen last, no field changes at all. |
| NavMenuComponent.NavMenu.DidReceiveAttrs | ghost/admin/app/components/gh-nav-menu/main.js:71-73 | Takes the new icon attribute and resolves it. The shortcuts are untouched. When the new icon is both the current attribute and the last one seen, no field changes. |
| NavMenuComponent.ReceiveSameIconTwice | ghost/admin/app/components/gh-nav-menu/main.js:130-137 | Two updates with the same icon leave every field (icon, shortcuts and the three resolver fields) as one update does: the second update changes nothing. |
| Navigation.TransitionToOrRefreshSite | ghost/admin/app/components/gh-nav-menu/main.js:90-102 | On the site route the link refreshes `site` and never transitions. Elsewhere, a contributor goes to `posts` and any other user to `site`. With no user, it fails. |
| Navigation.OnSiteIsNotIntegration | ghost/admin/app/components/gh-nav-menu/main.js:40-46 | `isOnSite` and `isIntegrationRoute` are never set together. |
| Navigation.NoUserHidesUserFlags | ghost/admin/app/components/gh-nav-menu/main.js:48-52 | Without a signed-in user, neither the tags navigation nor the menu extension is shown. |
| DeployPoller.StepEffects | ghost/admin/app/components/gh-nav-menu/main.js:153-158 | A reply causes at most one effect. An alert (of that reply's message) happens exactly when the status is 1/"1". A schedule (of 2000 ms) happens exactly when the status is 0/"0". |
| DeployPoller.HandleReply | ghost/admin/app/components/gh-nav-menu/main.js:153-158 | The reply callback produces exactly `StepEffects` of the reply. It asks for another poll exactly when the status is 0/"0". |
| DeployPoller.PollCount | ghost/admin/app/components/gh-nav-menu/main.js:152-160 | A cycle consumes at least one reply when there is any, and never more than there are. |
| DeployPoller.PollUntilSettled | ghost/admin/app/components/gh-nav-menu/main.js:152-160 | The polling loop produces exactly `PollTrace` of the replies and consumes exactly `PollCount` of them. |
| DeployPoller.InitDeployChanges | ghost/admin/app/components/gh-nav-menu/main.js:193-200 | The trigger and the cycle it starts produce exactly `DeployTrace`. |
| DeployPoller.PollCountStopsAtFirstSettled | ghost/admin/app/components/gh-nav-menu/main.js:152-160 | Polling consumes the replies up to and including the first one that is not pending, or all of them when every one is pending. |
| DeployPoller.StepAlerts | ghost/admin/app/components/gh-nav-menu/main.js:154-155 | A reply shows its message when it is complete, and shows nothing otherwise. |
| DeployPoller.PollTraceRequests | ghost/admin/app/components/gh-nav-menu/main.js:153 | A cycle sends exactly one status request per reply consumed. |
| DeployPoller.PollTraceAlerts | ghost/admin/app/components/gh-nav-menu/main.js:152-160 | A message is shown iff the last reply consumed is complete, and then it is that reply's message, shown once. |
| DeployPoller.AtMostOneCompletionMessage | ghost/admin/app/components/gh-nav-menu/main.js:154-158 | A poll cycle shows at most one message. |
| DeployPoller.CompletionEndsCycle | ghost/admin/app/components/gh-nav-menu/main.js:154-155 | A cycle that ends on a complete reply ends with its message. No poll is scheduled after it. |
| DeployPoller.PollTraceShape | ghost/admin/app/components/gh-nav-menu/main.js:153-157 | A cycle starts with a status request, and every later request directly follows a 2000 ms schedule. |
| DeployPoller.PollTraceHasNoPost | ghost/admin/app/components/gh-nav-menu/main.js:152-160 | A poll cycle never sends a trigger request. |
| DeployPoller.DeclinedDoesNothing | ghost/admin/app/components/gh-nav-menu/main.js:194 | A declined confirmation sends nothing, shows nothing and schedules nothing. |
| DeployPoller.TriggerEffectsCounts | ghost/admin/app/components/gh-nav-menu/main.js:194-198 | Before polling starts, an accepted deploy sends exactly one request and shows exactly the trigger reply's message. |
| DeployPoller.AcceptedTriggersOnce | ghost/admin/app/components/gh-nav-menu/main.js:193-199 | An accepted confirmation runs: one POST of `{}` to `/blog/ghost/deploy-changes/<env>`, then an alert of its message, then one 2000 ms schedule. This is the only POST, and the request count is one plus the polls. |
| DeployPoller.DeployAlerts | ghost/admin/app/components/gh-nav-menu/main.js:193-199 | A deploy shows the trigger's message and then at most one completion message: the one from the reply that ended the cycle. |
| DeployPoller.EveryPollFollowsDelay | ghost/admin/app/components/gh-nav-menu/main.js:152-199 | In every deploy, each status request directly follows a 2000 ms schedule, so polls never overlap. |
| DeployPoller.ProductionDeployExample | ghost/admin/app/components/gh-nav-menu/main.js:193-199 | Deploying `production` with replies "starting" and then complete "done" gives: confirm, POST, alert "starting", schedule, GET, alert "done". |
| DeployPoller.UnrecognisedStatusStopsSilently | ghost/admin/app/components/gh-nav-menu/main.js:154-158 | A status of `2` or `"done"` ends polling without a message, even when replies are left. |

The specification functions have no contract of their own; the lemmas and
methods above state what they mean:

- `Text.StartsWithIgnoringCase` and `IconStyle.HasHttpScheme` (line 139) are
  specified by `StartsWithIgnoringCaseIff`, `CaseOfSubjectIrrelevant` and
  `SchemeInAnyCaseMatches`; `IconStyle.IsAbsoluteIcon` (line 139) by `Resolve`.
- `IconStyle.Step` (lines 131-148) by `StepSameIconIsNoOp`,
  `StepRemembersIcon`, `StepIdempotent`, `StepForgetsHistory`,
  `FreshComponentIgnoresUndefined` and `NavMenu.SetIconStyle`.
- `DeployPoller.Classify` (lines 154 and 156) by `StepEffects`, `HandleReply`
  and `UnrecognisedStatusStopsSilently`.
- `DeployPoller.PollTrace` (lines 152-160) by `PollUntilSettled`,
  `PollTraceRequests`, `PollTraceAlerts`, `AtMostOneCompletionMessage`,
  `CompletionEndsCycle`, `PollTraceShape` and `PollTraceHasNoPost`.
- `DeployPoller.TriggerEffects` and `DeployTrace` (lines 193-199) by
  `InitDeployChanges`, `TriggerEffectsCounts`, `DeclinedDoesNothing`,
  `AcceptedTriggersOnce`, `DeployAlerts`, `EveryPollFollowsDelay` and
  `ProductionDeployExample`.

The flag predicates `Navigation.IsIntegrationRoute`, `IsOnSite`,
`ShowTagsNavigation`, `ShowMenuExtension` and `ShowBilling` model lines 40-55.
They have no contract of their own, and the lemmas above relate them.

## Left out

- Network I/O: the `post`/`get` helpers (main.js:162-191), `fetch` options and
  `response.json()`. Replies are inputs. A request that fails or a body that
  is not JSON has no handling in the code, so it has no counterpart here. In
  the code, such a failure would stop the trigger path before the first poll
  is scheduled.
- Timing and browser side effects. `setTimeout`, `alert` and `confirm` become
  trace effects and a boolean input. The `window.initDeployChanges` global
  becomes the method `InitDeployChanges`. Nothing guards against two deploy
  cycles running at once, and the model, with one cycle per call, does not
  show how two cycles would interleave.
- DeployPoller.PollTrace: the model observes only a finite sequence of
  replies. When every reply is pending, the trace ends with a poll that is
  scheduled but not yet observed. The code would go on polling without end.
- The `msg` field is modelled as a string. An absent or non-string `msg`
  (which `alert` would turn into text) is not.
- A numeric status is the value `response.json()` produces, that is the JSON
  literal already rounded to a double (`1e-400` arrives as `0`,
  `1.00000000000000001` as `1`). `Num` holds that parsed value; the rounding
  done by JSON parsing is not modelled.
- Ember machinery is left out: decorators, service injection, `this.set`,
  `htmlSafe` (taken as the identity on strings), route lookup and `refresh()`
  (a `Refresh` result), and the shortcut mixin's `registerShortcuts` and
  `removeShortcuts`.
- `ctrlOrCmd` is a parameter of the constructor. The module that picks it per
  platform is not part of this model.
- How the user's role flags follow from the role name is not part of this
  model: the flags are inputs.
- `showMenuExtension` uses Ember's `and`, which yields the deciding operand
  rather than a boolean. It is modelled by its truthiness, which is how the
  template uses it.
- A `null` route name (before the first transition) is handled: neither route
  flag is set. The case where `transitionToOrRefreshSite` reads the role of an
  absent user throws in the code; it is the `NoUser` result.
- `_loadMemberCountsTask`, and the `memberCountLoading` field it sets, are
  left out. That task is an asynchronous call to the member-statistics
  service.
- `openSearchModal`, `toggleBillingModal` and `toggleExploreWindow` are left
  out: each is a one-line delegation to an external service.
