# School login front end: address cascade and profile rendering in Dafny

This project models the client-side logic of a school-administration front end. It has two screens.

- **Address form** (`src/components/AddressForm.js`). The user picks a province, then one of its districts (amphure), then one of that district's subdistricts (tambon). The subdistrict's postal code is copied into the address draft. Submitting validates the draft, checks for a session token, builds a JSON payload and resets the form after a save.
- **Login screen** (`src/App.js`). The form fields are updated from change events. A successful login stores the token and, if remember-me is set, the username. The user summary translates role tags into Thai labels and renders one HTML block per profile the user has.

Each React handler is one pure function over an explicit state record. Network replies are parameters. "find" is a first-match lookup that returns an `Option`.

Modules:

- `Wrappers`: `Option`, plus `Somes`, which keeps the present entries of a list (`filter(Boolean)` over `null`s).
- `Text`: `Join` (`Array.prototype.join`), JavaScript string truthiness, `Split`, and the lemma that splitting a join gives back the parts.
- `Address`: the form state and the four field handlers.
- `AddressProps`: idempotence, the option-list invariant, the full cascade, and the places where the handlers do not clear a selection.
- `AddressSubmit`: validation, the token check, the payload and the reset.
- `Roles`: `getRoleText` and the roles list.
- `Profiles`: `getProfileDetails`.
- `Login`: `handleChange`, the storage writes and the error text.

## Behaviour followed as written

In several places the handlers do less than a fully clearing cascade would. The model follows the code, and lemmas state each gap.

- Changing province does not reset the selected district or subdistrict (`AddressProps.ProvinceChangeKeepsStaleSelections`).
- Changing district does not reset the selected subdistrict: only the `addr_sub_dist` and `addr_pos_code` fields are cleared (`AddressProps.AmphureChangeKeepsStaleTambon`).
- The province and district placeholders empty the option lists but leave the draft untouched.
- The subdistrict placeholder clears the selection but keeps the postal code and subdistrict name (`AddressProps.PlaceholderSubdistrictKeepsPostalCode`).
- After a save, the selections and the draft are reset but the option lists are kept.
- If the address POST resolves with a status other than `"success"`, nothing is shown and the form is kept.
- If the login POST resolves with a status other than `"success"`, nothing is shown and storage is unchanged.
- An empty stored token counts as absent, because `!token` is true for `""`.

## Model

| member | source | states |
|---|---|---|
| Wrappers.Somes | src/App.js:112-120 | `filter(Boolean)` over entries that are a line or null: one value per present entry, every present value kept, and empty exactly when every entry is null |
| Wrappers.SomesAppend | src/App.js:112-120 | the filter distributes over concatenation; with `SomesSingleton` (a present entry is kept, an absent one dropped) this fixes the result exactly, order and repeats included |
| Wrappers.SomesMap | src/App.js:112-120 | mapping then filtering equals filtering then mapping, element by element in order |
| Text.Join | src/App.js:51-52 | `join` of no parts is empty, and a join starts with its first part |
| Text.JoinAppend | src/App.js:142 | joining two non-empty lists is joining each with one separator between |
| Text.JoinLength | src/App.js:142 | a join is as long as its parts plus one separator fewer than there are parts |
| Text.SplitJoin | src/App.js:146-148 | splitting a `join` on its separator gives back the parts, when the separator cannot overlap itself and no part contains it |
| Text.NoDoubleInJoin | src/App.js:142 | in a join of non-empty parts free of a non-overlapping separator, the doubled separator cannot start inside the join |
| Text.SplitJoinDoubled | src/App.js:142 | blocks that are each a join of non-empty, separator-free lines are given back by splitting their join on the doubled separator, although the doubled separator overlaps itself |
| Address.FirstWithId | src/components/AddressForm.js:58 | finds the first element with the id: that element has the id, no earlier one does, and "not found" means no element has it |
| Address.Find | src/components/AddressForm.js:58 | `find` with `parseInt` of the select value: succeeds exactly when some listed element has the selected id (never for the placeholder), and returns a listed element with that id before which no element has it |
| Address.InitialDraftDefaults | src/components/AddressForm.js:7-16 | the initial draft holds exactly the eight named keys, all empty except `addr_type`, which is "current" |
| Address.HandleInputChange | src/components/AddressForm.js:48-54 | the draft key named by the input id now holds the value; every other key reads as before; the rest of the form is unchanged |
| Address.HandleProvinceChange | src/components/AddressForm.js:56-75 | the first listed province with the id becomes the selection, sets `addr_prv` to its name, clears district, subdistrict and postal code, keeps the other fields, and its districts become the options; otherwise the selection is null, both lists are empty and the draft is untouched; district and subdistrict selections are never touched |
| Address.HandleAmphureChange | src/components/AddressForm.js:77-93 | the first listed district with the id is selected, sets `addr_dist`, clears the `addr_sub_dist` and `addr_pos_code` fields, keeps `addr_prv`, and its subdistricts become the options; otherwise the subdistrict options are empty and the draft is untouched; the province and subdistrict selections are never touched |
| Address.HandleTambonChange | src/components/AddressForm.js:95-107 | the first listed subdistrict with the id is selected and sets `addr_sub_dist` to its name and `addr_pos_code` to exactly its postal code, nothing else; an unlisted id clears only the selection |
| AddressProps.InputChangeSameValue | src/components/AddressForm.js:48-54 | writing back a value an input already holds leaves the form equal |
| AddressProps.ProvinceChangeIdempotent | src/components/AddressForm.js:56-75 | selecting the same province twice gives the same state as once |
| AddressProps.AmphureChangeIdempotent | src/components/AddressForm.js:77-93 | selecting the same district twice gives the same state as once |
| AddressProps.TambonChangeIdempotent | src/components/AddressForm.js:95-107 | selecting the same subdistrict twice gives the same state as once |
| AddressProps.InitialFormConsistent | src/components/AddressForm.js:7-24 | the initial form has empty lists, no selection and an empty postal code, so the option-list invariant holds |
| AddressProps.InputChangeKeepsConsistent | src/components/AddressForm.js:48-54 | field edits keep the option-list invariant |
| AddressProps.ProvinceChangeKeepsConsistent | src/components/AddressForm.js:56-75 | province change keeps the invariant: a selected province is from the tree and supplies the district options |
| AddressProps.AmphureChangeKeepsConsistent | src/components/AddressForm.js:77-93 | district change keeps the invariant: subdistrict options are empty or those of a current district option |
| AddressProps.TambonChangeKeepsConsistent | src/components/AddressForm.js:95-107 | subdistrict change keeps the invariant |
| AddressProps.FindUnique | src/components/AddressForm.js:97 | with unique ids, looking up an element's id returns that element |
| AddressProps.CascadeDerivesPostalCode | src/components/AddressForm.js:56-107 | province, then one of its districts, then one of its subdistricts (unique ids): the postal code equals that subdistrict's, all three names are written, the free text is kept, and selections and lists match the chosen path |
| AddressProps.CascadeExample | src/components/AddressForm.js:56-107 | province 1, district 10, subdistrict 100 yield postal code "10100" |
| AddressProps.ProvinceChangeKeepsStaleSelections | src/components/AddressForm.js:56-75 | picking another province after a full cascade leaves the old district and subdistrict selected, so the cascade no longer holds |
| AddressProps.AmphureChangeKeepsStaleTambon | src/components/AddressForm.js:77-93 | from a full cascade, choosing another district keeps the old subdistrict selected although it is not among the new options, while `addr_sub_dist` and `addr_pos_code` are cleared |
| AddressProps.PlaceholderSubdistrictKeepsPostalCode | src/components/AddressForm.js:95-107 | after a full cascade, the subdistrict placeholder clears the selection but keeps the postal code and subdistrict name |
| AddressSubmit.CompleteIff | src/components/AddressForm.js:114 | validation passes exactly when `addr_prv`, `addr_dist`, `addr_sub_dist` and `addr_etc` are all non-empty; postal code, phone, house registration and type are not checked |
| AddressSubmit.NullIfEmpty | src/components/AddressForm.js:130-131 | `value \|\| null`: null exactly for the empty string, else the value itself |
| AddressSubmit.MakePayload | src/components/AddressForm.js:124-133 | the payload copies the four required fields, postal code and type verbatim, and sends phone and house registration as null exactly when empty |
| AddressSubmit.PayloadRoundTrip | src/components/AddressForm.js:124-133 | reading the payload back (null as empty) recovers the draft's eight fields |
| AddressSubmit.ErrorText | src/components/AddressForm.js:179 | the error text is the server's message, else the error's own message, else the generic fallback |
| AddressSubmit.Submit | src/components/AddressForm.js:109-183 | an incomplete draft fails with the validation message before the token check and sends nothing; a missing token fails with the login message and sends nothing; otherwise the payload goes with a `Bearer` header; a success resets the draft to the defaults and all three selections to null; every other outcome keeps the form |
| AddressSubmit.InitialDraftIncomplete | src/components/AddressForm.js:7-16 | the initial draft never passes validation |
| AddressSubmit.SubmitKeepsConsistent | src/components/AddressForm.js:158-170 | the reset after a save keeps the option-list invariant |
| Roles.RoleText | src/App.js:25-42 | each of the six known tags maps to its fixed label; any other tag is returned unchanged |
| Roles.RoleTextIdentityIff | src/App.js:25-42 | a tag is shown as itself exactly when it is unknown; the six labels are pairwise different |
| Roles.RoleLines | src/App.js:146-147 | one line per role, line i being "- " followed by the label the translation table gives role i, or the raw tag when the table has none |
| Roles.RolesList | src/App.js:146-148 | the roles list is empty exactly when the user has no roles, and otherwise starts with "- " |
| Roles.RolesListLines | src/App.js:146-148 | the roles list splits back on `<br>` into exactly one "- label" line per role, in order; it is empty exactly when there are no roles |
| Profiles.ContactCases | src/App.js:49-57 | the contact text holds the email and the phone exactly when each is present, email first and `<br>` between; with neither there is no contact line in any block |
| Profiles.ClassLabelHasSlash | src/App.js:64 | every class label, even with level and room missing, contains " /" |
| Profiles.TeacherClassesTextSpec | src/App.js:63-72 | filtering empty labels drops nothing; the class text splits back on ", " into one "level /room" label per class; the "not specified" sentinel appears exactly when the class list is empty |
| Profiles.DashListSpec | src/App.js:93-96 | a "- name" list is empty exactly when there are no names, never equals a sentinel, and splits back into one line per name |
| Profiles.ParentStudentsSentinel | src/App.js:93-102 | the parent block shows "no data" exactly when the student list is empty, else the dash list |
| Profiles.TeacherLinesAreResolvedNames | src/App.js:111-121 | the kept homeroom lines are exactly "- first last" for the entries whose teacher user resolves, in homeroom order, repeats included |
| Profiles.TeacherNames | src/App.js:113-121 | the homeroom text is empty exactly when no entry's teacher user resolves, and otherwise starts with a dash |
| Profiles.TeacherNamesSpec | src/App.js:111-136 | the homeroom text is the `<br>`-join of the resolved teachers' lines in homeroom order; there are as many lines as resolvable entries; the "not specified" sentinel shows exactly when none resolves |
| Profiles.AcademicInfo | src/App.js:124-127 | the term is the sentinel exactly when there is no first homeroom entry or it has no term; otherwise it starts with the term name and ends with the academic year |
| Profiles.AcademicInfoFirstOnly | src/App.js:123-127 | the term shown depends only on the first homeroom entry; with no entries it is the sentinel |
| Profiles.PresentKeysSpec | src/App.js:54-140 | the present keys are exactly the listed keys whose profile exists, kept in ascending block order |
| Profiles.BlocksForPresent | src/App.js:54-140 | the emitted blocks are one per present key, each that key's block |
| Profiles.DetailBlocksFollowOrder | src/App.js:54-142 | blocks appear only for present profile keys, one each, in the order admin, teacher, executive, registrar, parent, student |
| Profiles.Block | src/App.js:54-140 | a block exists exactly for a present profile and opens with its role's bold heading |
| Profiles.BlockNonEmpty | src/App.js:54-140 | a present block is never empty |
| Profiles.NoBlocksIff | src/App.js:54-140 | there are no blocks exactly when the user has no profiles |
| Profiles.ProfileDetails | src/App.js:44-143 | `getProfileDetails`: the `<br><br>`-joined profile text is empty exactly when the user has no profiles |
| Profiles.SinglePresentKey | src/App.js:54-140 | with only one profile present, that is the only present key |
| Profiles.SingleProfileDetails | src/App.js:54-142 | with only one profile, the profile text is exactly that profile's block |
| Profiles.BodyIsLines | src/App.js:54-139 | each role's body (`AdminBody`, `TeacherBody`, `ExecutiveBody`, `RegistrarBody`, `ParentBody`, `StudentBody` with `ClassLine`) is its list of labelled lines separated by `<br>`; the parent's students and the student's homeroom teachers and parents contribute one line each, or one sentinel line when there are none |
| Profiles.StudentBodyIsLines | src/App.js:106-139 | the student body is, line by line: code, gender, state, class and room, the homeroom heading, one line per resolved homeroom teacher (or the sentinel), the term, the parents heading, one line per parent (or the sentinel) |
| Profiles.BlockIsLines | src/App.js:54-139 | each block (`Block`) is its bold title, the name line, one line per contact entry present, then the role's lines, separated by `<br>` |
| Profiles.BlockReadsBack | src/App.js:54-142 | read back on `<br>`, a block gives exactly those lines in order, when no line holds a `<br>` of its own |
| Profiles.BlockLinesNonEmpty | src/App.js:54-139 | every line of a block is non-empty: a labelled value, a heading, a "- name" entry or a sentinel |
| Profiles.ProfileDetailsReadsBack | src/App.js:44-143 | read back on `<br><br>`, the profile text gives exactly its blocks in order when no line holds a `<br>` of its own; with no profiles it gives one empty string |
| Profiles.SampleTeacherClasses | src/App.js:62-74 | a teacher with class M1 room 1 shows "M1 /1" in the teacher block body |
| Login.HandleChange | src/App.js:17-23 | a checkbox stores its checked flag and other inputs their text, under the target's id; every other key reads as before |
| Login.StoreSession | src/App.js:180-186 | the token is always stored; the remembered username is present exactly when remember-me is truthy and then holds the username; no other key changes |
| Login.SubmitLogin | src/App.js:166-209 | on success storage is exactly what `StoreSession` gives (token set, username stored or removed, every other key kept) and the summary shows the roles list and profile text; a non-success status changes nothing; on an error storage is unchanged and the text is the server message, else the generic fallback |
| Login.RememberMeFromCheckbox | src/App.js:17-23 | after typing a username and setting the checkbox through change events, the stored username is present exactly when the box is checked, and then holds the username as typed (`IsTruthy`, `StoredText`) |
| Login.StoreSessionIdempotent | src/App.js:180-186 | storing the same session twice gives the same storage as once |
| Login.SampleLogin | src/App.js:166-196 | "teacher01" with remember-me and token "abc": both are stored, and the profile text is the teacher block, whose body shows "M1 /1" |

## Left out

- Network calls are not modelled. This covers the province fetch on mount (`src/components/AddressForm.js:26-46`) and the two POSTs. The province tree and each reply are parameters.
- SweetAlert dialogs appear only as the notice value of an outcome. Their styling and timers are not modelled.
- `console` logging, `config`, `useNavigate`, JSX markup, CSS and `src/index.js` are not modelled. They hold no logic.
- The `disabled` and `readOnly` attributes are not modelled. The handlers are total, so they need no precondition.
- React state batching and async scheduling are not modelled. Each handler is one atomic transition.
- A double submit while a request is in flight is not modelled.
- The rest of the summary HTML in `showUserRoles` is not modelled: the username, the national id with its `'-'` fallback, and the template whitespace (`src/App.js:152-163`). Only the roles list and the profile text are.
- HTML escaping is not modelled. Strings go into the HTML as they are.
- `parseInt` corner cases are not modelled. A select value is `None` for the placeholder (NaN) or `Some(id)`.
- `String(addr_pos_code)` is the identity here, because postal codes are modelled as strings.
- Absent id fields (`adm_id`, `tea_id`, `position`, ...) and absent lists (`teacher_classes`, `students`, `parents`) are not modelled. In JavaScript the former render as "undefined" (`position` at `src/App.js:81`) and the latter throw. The model takes them as always present.
- A `teacher_classes` entry without `class` is not modelled. `src/App.js:64` would throw on it.
- A success reply without `data` is not modelled. `src/App.js:180` would throw, so the fallback dialog shows and storage is untouched.
- A throw in `showUserRoles` after the token is stored is not modelled. It would turn a success into an error dialog.
- Roles.RolesListLines: stated only for role tags that do not themselves contain `<br>`. Such a tag would read back as two lines.
- Profiles.TeacherClassesTextSpec: the split-back clause is stated only for class labels without ", ", for the same reason.
- Profiles.DashListSpec: the split-back clause is stated only for names without `<br>`.
- Profiles.BlockReadsBack: stated only when no line of the block contains `<br>` itself. A value with a `<br>` would read back as two lines.
- Profiles.ProfileDetailsReadsBack: stated only when no line of any block contains `<br>` itself. Such a line could put `<br><br>` inside a block.
- AddressProps.CascadeDerivesPostalCode: stated for lists with unique ids. With duplicate ids, `find` picks the first match, which is what `Address.FirstWithId` states.
