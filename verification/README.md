# markdown-newtab, modelled in Dafny

markdown-newtab is an extension for Python-Markdown that makes generated links
open in a new window. It subclasses the library's link patterns. After the
library has built the `<a>` element for a match, the extension's
`handleMatch` adds `target="_blank"` to it. It skips same-page anchors (an
`href` starting with `#`). When the `external_only` option is on, it also skips
every `href` that does not contain `http`. The rule is written once, in
`NewTabMixin`. The link, reference, short-reference, autolink and automatic-mail
patterns all use it. So the one model here covers all five link forms.

The project has two modules:

- `Builtins` (`builtins.dfy`): the Python built-ins the rule is written with.
  These are `str.startswith` (`StartsWith`), substring containment `sub in s`
  (`Contains`, proved equal to the reference definition `OccursIn`) and `all`
  (`All`).
- `NewTab` (`newtab.dfy`): the rule itself.
  - `Config` is the option and `DefaultConfig` its default.
  - `ShouldMark` is the decision.
  - `Decorated` is the specification of the new attribute map.
  - `Element` is the ElementTree element, with an attribute map and a text.
  - `HandleMatch` is the imperative `handleMatch`. It builds the
    `match_conditions` list, appends to it when the option is on, and sets
    `target` in place. It is proved to leave the element's attributes equal to
    `Decorated` of the old ones and its text unchanged.
  - The remaining lemmas state the promised properties in terms of `Decorated`.
  - `HandleMatchClient` builds elements with `Element`'s constructor and runs
    `HandleMatch` on them, showing what a caller can conclude from its contract.

The library's own `handleMatch` (the `super()` call) is foreign code. Its result
is a parameter of `HandleMatch`: an `Element?`, where `null` stands for Python's
`None`. The mixin reads its configuration from `self.config`. Here it is the
parameter `cfg`.

## Model

| member | source | states |
|---|---|---|
| `Builtins.ContainsIffOccurs` | markdown_newtab/__init__.py:35 | the left-to-right scan used for `'http' in href` is true exactly when the substring occurs at some index, in both directions |
| `Builtins.All` | markdown_newtab/__init__.py:37 | `all(match_conditions)` is true exactly when every entry of the list is true (so true for an empty list) |
| `NewTab.Decorated` | markdown_newtab/__init__.py:32-40 | every key other than `target` keeps its value and no key other than `target` is added. `target`, when present afterwards, is `_blank` or its old value. When the decision holds, `target` is `_blank`. When it fails, the attributes are exactly those the library built |
| `NewTab.HandleMatch` | markdown_newtab/__init__.py:25-40 | a `None` result from the library is returned as is. Otherwise the same element is returned, its attributes are now `Decorated` of the old ones and its text is unchanged |
| `NewTab.MarkIff` | markdown_newtab/__init__.py:32-38 | an element is marked if and only if its `href` does not start with `#` and, when `external_only` is on, `http` occurs somewhere in the `href` |
| `NewTab.SamePageUntouched` | markdown_newtab/__init__.py:32-38 | an element whose `href` starts with `#` comes back exactly as built, whatever `external_only` is |
| `NewTab.DefaultMarksEveryOtherLink` | markdown_newtab/__init__.py:32-38 | with `external_only` off, any element whose `href` does not start with `#` ends with `target="_blank"` and is otherwise unchanged |
| `NewTab.ExternalOnlyMarksExactly` | markdown_newtab/__init__.py:32-38 | with `external_only` on, `target="_blank"` is added exactly when the `href` does not start with `#` and contains `http` (case-sensitive); otherwise the element comes back as built |
| `NewTab.ExternalOnlyNarrows` | markdown_newtab/__init__.py:34-35 | turning `external_only` on only adds a condition: every link it marks is also marked under the default |
| `NewTab.DecoratedIdempotent` | markdown_newtab/__init__.py:32-40 | `href` survives the decoration, and decorating a decorated element again changes nothing |
| `NewTab.DecisionIgnoresOtherAttributes` | markdown_newtab/__init__.py:32-38 | the decision reads only `href`: changing another attribute (such as `title`) before the rule gives the same result as changing it after |
| `NewTab.DefaultRule` | markdown_newtab/__init__.py:67 | under the default configuration (`external_only` false) a link is marked exactly when its `href` does not start with `#` |
| `NewTab.TestSuiteExamples` | run_tests.py:19-42 | the test suite's cases: `https://ddg.gg` (with and without a title) and `https://ddg.gg#p1` get `target="_blank"`; `#part2` is left alone |
| `NewTab.MailLinkExamples` | run_tests.py:132-140 | a `mailto:` link is marked under the default configuration and left alone under `external_only`, since it has no `http` in it |
| `NewTab.ExternalOnlyExamples` | markdown_newtab/__init__.py:32-38 | with `external_only` on, `#part2` and `/about` are left alone, while `https://ddg.gg` and `/http-page` are marked |

## Left out

- The library's own pattern matching and element construction (the
  `super().handleMatch` call), HTML serialisation and mail-address obfuscation
  are not modelled. They belong to Python-Markdown, which is not part of this
  model. The library's result is an arbitrary `Element?` input.
- `NewTabExtension.extendMarkdown` is not modelled. It only registers the
  patterns in the library's pattern registry.
- `NewTabMixin.__init__`, `NewTabExtension.__init__` and `makeExtension` are not
  modelled. They are constructor glue. The configuration is passed to
  `HandleMatch` directly.
- The configuration's `[value, description]` list is not modelled. The option is
  a plain `bool` in `Config`, and a non-boolean value is not modelled.
- An element without an `href` attribute is excluded by a precondition. For
  such an element `elem.get('href')` is `None` and `.startswith` raises, so
  there is no behaviour to model.
- The element's tag and its child elements are not modelled. The rule neither
  reads nor writes them.
