# haKCAssets core, modelled in Dafny

This project models the core of haKCAssets: its asset sync engine and its small deterministic text generators. It proves properties of that model.

**Asset sync engine.** Three sync tools share rule-based classification of files into asset categories. Each has its own fallbacks:

- `hakc_assets.py` covers state, manifests and the master manifest;
- `organize.py` covers misplaced-file checks and move planning;
- `sync_org.py` covers the organisation-wide scanner.

These modules model it:

- `RuleEngine`: the rule predicates and the priority-ordered first match.
- `HakcAssets`: ignore list, fallback policy, README banner extraction, sync paths and keys, and `needs_sync`.
- `HakcScan`: `scan_repo`'s classification.
- `Manifests`: the per-category manifest.
- `AssetSync`: `download_asset` and `sync` over a disk, network and clock given as inputs.
- `MasterManifest`: the aggregated manifest.
- `Organize`: `AssetOrganizer`.
- `SyncOrg`: `OrgScanner`.

**Text helpers.** These modules model them:

- `GenLib` and `Glyphs`: the shared `lib.py` block letters, boxes, centring and signature.
- The banner generator, as four modules:
  - `BannerTemplate` for `{var}` substitution;
  - `BannerRendering`;
  - `HakcBanner`;
  - `BannerVariants` for the variant file names.
- `HakcArt`: the art generator and its banner-vibe classifier.
- `HakcMenu`: the menu layouts.
- `HakcMotd`: the MOTD store, box, listing and colour gradient.
- `HakcerMenu`: the documentation menu's banner splitting, row ownership, dropdown and key handlers.
- `RenderGifs`: the ANSI frame parser and frame subsampling of the GIF renderer.

**Shared modules.** These give Python's semantics for the operations the scripts use:

- `PyStr`: `str` methods, with the whitespace and padding definitions written out.
- `PyPath`: `PurePosixPath` name, stem, suffix and parent.
- `Dicts`: insertion-ordered dictionaries.
- `Arith`: the facts about products, Euclidean quotients and remainders that section splitting, the wrapping cursor and frame subsampling rest on.
- `Wrappers`: `Option` and `Result`.

**How effects are modelled.**

- Calls out of the process are inputs: the filesystem, `gh`/`curl`/`sips`, the clock and random choices. They appear as listing records, a set of existing paths, fetch-success and dimension oracles, timestamps and choice indices.
- A loop that mutates state in the source is a method with loop invariants, proved against a specification function. Pure logic is a function.
- Objects that update their fields are classes: `Manager`, `Disk`, `Manifest`, `Tree`, `OrgScanner`, `MotdData` and `Tester`.


## Model

| member | source | states |
|---|---|---|
| Glyphs.BigLetterShape | tools/generators/lib.py:36-80 | The big table has a glyph exactly for A-Z, 0-9, space, `-`, `.`, `_` and `:`. Each glyph is five rows of one common width, at least one column wide. |
| Glyphs.SimpleLetterShape | tools/generators/lib.py:81-123 | The simple table has a glyph for the same characters. Each glyph is three rows of one common width, at least one column wide. |
| Glyphs.GlyphShape | tools/generators/lib.py:36-123 | Every glyph of any table variant has as many rows as the style's height, all of the same width. |
| Glyphs.BannerTablesAgree | tools/generators/banner/hakc_banner.py:159-225 | The banner generator's tables hold the same glyphs as the library's wherever they have one. They have none for digits or `:`, which the library's tables have. |
| GenLib.UnknownStyleIsDouble | tools/generators/lib.py:13-19 | `BOX.get(style, BOX["double"])`: a style outside the five names gives the double box characters. |
| GenLib.TextToBig | tools/generators/lib.py:126-142 | Five rows for style `big`, three otherwise. Row i is the i-th rows of the upper-cased text's glyphs laid side by side. |
| GenLib.TextToBigWith | tools/generators/lib.py:126-142 | The same loop over either table variant, proved with loop invariants against the row function. |
| GenLib.AddChar | tools/generators/lib.py:134-141 | One character appends its glyph's row to each row, or one space to each row when it has no glyph. The row count is kept. |
| GenLib.RowWidth | tools/generators/lib.py:134-142 | Every row of a rendering has the same length: the sum of the characters' glyph widths. |
| GenLib.TextToBigRows | tools/generators/lib.py:126-142 | All rows of `text_to_big` have the length of the upper-cased text's glyphs side by side. |
| GenLib.UnknownCharIsSpace | tools/generators/lib.py:138-140 | A character without a glyph adds exactly one space to every row, and one column to the width. |
| GenLib.MaxLen | tools/generators/lib.py:148 | The maximum line length: an upper bound on every line, reached by one of them. |
| GenLib.MakeBox | tools/generators/lib.py:145-159 | `make_box` fails exactly when there are no lines, because `max` of nothing raises. Otherwise it returns the framed box, in the named style or else the double one. |
| GenLib.BoxLines | tools/generators/lib.py:153-155 | The loop over the lines builds one padded, filled and side-closed row per line. |
| GenLib.BoxShape | tools/generators/lib.py:145-159 | For non-negative padding the box has len(content)+2 rows, each max_len + 2·padding + 2 long. Each content row holds its line right after the padding. |
| GenLib.BoxRowShape | tools/generators/lib.py:154-155 | A content row whose line and padding fit is width+2 long and holds the line after the side and the padding. |
| GenLib.FramedShape | tools/generators/lib.py:145-159 | Any frame wide enough for every line has all rows width+2 long, with each line in its place. |
| GenLib.CenterLines | tools/generators/lib.py:162-168 | `center_lines` keeps the line count, and line k is the centred line k. |
| GenLib.CenterLineShape | tools/generators/lib.py:165-167 | A centred line is the line behind max(0, (width−len)//2) spaces; a line at least as wide as the width comes back unchanged. The padding is the floor of half the slack. |
| GenLib.SignatureHoldsAuthor | tools/generators/lib.py:181-186 | The warez signature is `───── ▓ signed, ` + author + `: ▓ ─────`; any other style gives `─ ` + author. The author can be read back at a fixed offset. |
| HakcArt.TextToArt | tools/generators/hackerart/hakc_art.py:134-147 | Always three rows. Row i is the i-th rows of the upper-cased text's simple-table glyphs. |
| HakcArt.UnknownCharIsSpace | tools/generators/hackerart/hakc_art.py:143-145 | A character with no glyph, once upper-cased, adds one space to each row. |
| HakcArt.LowerCaseDrawnAsCapital | tools/generators/hackerart/hakc_art.py:136 | Lower-casing the input first changes nothing, since the text is upper-cased. |
| HakcArt.ArtRowsAlign | tools/generators/hackerart/hakc_art.py:134-147 | The three rows have one common length. |
| HakcArt.CenterText | tools/generators/hackerart/hakc_art.py:150-156 | Each line comes back behind max(0, (width−len)//2) spaces, keeping the line count. |
| HakcArt.CenterTextIsLibCentering | tools/generators/hackerart/hakc_art.py:150-156 | The art generator's centring equals the shared library's. |
| HakcArt.MakeBox | tools/generators/hackerart/hakc_art.py:159-173 | The call fails exactly when no width is given and there are no lines. Otherwise it returns the frame whose width is the given one, or max_len+4. |
| HakcArt.ContentRows | tools/generators/hackerart/hakc_art.py:167-169 | The loop builds one row per line. |
| HakcArt.ArtBoxShape | tools/generators/hackerart/hakc_art.py:159-173 | When every line fits, the box has two more rows than lines. Top and bottom are `width` long, but content rows are `width+2`, each holding its line from column 3. |
| HakcArt.ArtRowShape | tools/generators/hackerart/hakc_art.py:168-169 | A content row whose line fits is width+2 long and holds the line after the side and two spaces. |
| HakcArt.DefaultWidthFits | tools/generators/hackerart/hakc_art.py:162-163 | Without a width, max_len+4 is at least 4 and fits every line. |
| HakcArt.LoadBannerVibes | tools/generators/hackerart/hakc_art.py:176-208 | A missing banners directory gives the empty harvest. Otherwise every line of every file is classified, in file order. |
| HakcArt.AddFileLines | tools/generators/hackerart/hakc_art.py:191-203 | The per-file loop adds the lines' classifications in order. |
| HakcArt.AddLineCounts | tools/generators/hackerart/hakc_art.py:195-203 | One line adds one entry to exactly one bucket when it is classified, and nothing otherwise. |
| HakcArt.AddLinesCounts | tools/generators/hackerart/hakc_art.py:193-203 | Each bucket only grows at its end, and `patterns` never changes. The total grows by exactly the number of classified lines, so each line is in at most one bucket. |
| HakcArt.AddLinesSound | tools/generators/hackerart/hakc_art.py:195-203 | Every new entry comes from one of the lines: a header is a line with more than five `█`, and a divider or footer is the stripped text of a line classified as such. |
| HakcArt.DividerMeaning | tools/generators/hackerart/hakc_art.py:198-200 | A divider line is longer than 30, has at most five distinct characters once stripped, and is not a header. |
| BannerTemplate.WordRunMeaning | tools/generators/banner/hakc_banner.py:111 | The run of `\w` characters is a prefix of word characters that the next character, if any, ends. |
| BannerTemplate.PlaceholderSpan | tools/generators/banner/hakc_banner.py:111 | A placeholder match spans `{`, a non-empty name of word characters and `}`. |
| BannerTemplate.PlaceholderOf | tools/generators/banner/hakc_banner.py:111 | A brace, a word and a brace at the front of the text match as that word's placeholder, consuming exactly those characters. |
| BannerTemplate.PlaceholderPrefix | tools/generators/banner/hakc_banner.py:111 | A match starting inside `p` is not changed by text after it that can neither continue nor close the name. |
| BannerTemplate.ScanStep | tools/generators/banner/hakc_banner.py:124 | `re.sub` scans left to right without overlap: the first piece, then the scan of the rest. |
| BannerRendering.ScanSplit | tools/generators/banner/hakc_banner.py:124 | The scan splits where the second part starts with a character that cannot continue a placeholder. |
| BannerRendering.OutSplit | tools/generators/banner/hakc_banner.py:113-124 | Substitution over two runs of pieces is the substitution of each, numbered on. |
| BannerRendering.SourceOfScan | tools/generators/banner/hakc_banner.py:124 | Joining the pieces gives back the template: nothing is lost or invented by the scan. |
| BannerRendering.ScanPlaceholder | tools/generators/banner/hakc_banner.py:111-124 | A placeholder followed by more text is cut as that placeholder, then the pieces of the rest. |
| BannerRendering.ScanAround | tools/generators/banner/hakc_banner.py:111-124 | A text around a placeholder is cut as the pieces before it, the placeholder, then the pieces after it. |
| BannerRendering.PlaceholderSplit | tools/generators/banner/hakc_banner.py:111-124 | A placeholder anywhere is replaced by its substitution, and the text around it renders as it would alone. |
| BannerRendering.CustomValueWins | tools/generators/banner/hakc_banner.py:113-117 | A placeholder whose name is a custom variable becomes that value, even when a default getter has the name. |
| BannerRendering.GetterPicks | tools/generators/banner/hakc_banner.py:103-120 | A placeholder without a custom value becomes the getter's pick when its name is one of motd, greets, fus or signatures. |
| BannerRendering.UnknownKept | tools/generators/banner/hakc_banner.py:121-122 | A placeholder with neither a custom value nor a getter stays verbatim. |
| BannerRendering.OutUnresolved | tools/generators/banner/hakc_banner.py:121-124 | Pieces without a value are copied as they were cut. |
| BannerRendering.Verbatim | tools/generators/banner/hakc_banner.py:121-124 | Where no placeholder has a custom value or getter, the template comes back unchanged. |
| BannerRendering.ScanWithoutPlaceholders | tools/generators/banner/hakc_banner.py:111-124 | A text in which no placeholder starts is cut one character per piece. |
| BannerRendering.NoPlaceholderUnchanged | tools/generators/banner/hakc_banner.py:88-124 | A template without any `{name}` renders to itself, whatever the variables. |
| HakcBanner.TextToBig | tools/generators/banner/hakc_banner.py:227-243 | Five rows for `big`, three otherwise. Built from the banner's own tables, which lack digits and the colon. |
| HakcBanner.DigitIsBlank | tools/generators/banner/hakc_banner.py:159-243 | A digit has no glyph in these tables and adds exactly one space to every row. |
| HakcBanner.AgreesWithLib | tools/generators/banner/hakc_banner.py:227-243 | On text without digits or colons the banner's `text_to_big` rows equal the shared library's. |
| BannerVariants.VariantWithSuffix | tools/generators/banner/hakc_banner.py:669-671 | For an output whose name has a suffix, variant k is `stem_{k+1}suffix` in the output's directory, keeping the suffix. |
| BannerVariants.VariantWithoutSuffix | tools/generators/banner/hakc_banner.py:672-673 | For an output without a suffix, variant k is `{output}_{k+1}.txt`, which starts with the output. |
| BannerVariants.VariantPathShape | tools/generators/banner/hakc_banner.py:669-673 | Both cases at once: the variant's directory, name and suffix. |
| BannerVariants.VariantNameHasNoSlash | tools/generators/banner/hakc_banner.py:671 | The variant file name has no slash in it, so it stays in the output's directory. |
| BannerVariants.VariantParts | tools/generators/banner/hakc_banner.py:669-673 | Every variant path is one common front, the number k+1, then one common back. |
| BannerVariants.VariantPathsDistinct | tools/generators/banner/hakc_banner.py:663-674 | Different variants go to different files, so none overwrites another. |
| HakcMenu.GenerateWarezMenu | tools/generators/menu/hakc_menu.py:29-51 | `generate_warez_menu` never returns a menu. After the header and option rows it fails at line 46, where `"─" * (width - 4).center(...)` calls `.center` on an integer. |
| HakcMenu.WarezKeys | tools/generators/menu/hakc_menu.py:38-39 | Option i (from 1) is labelled by the digit i below 10 and by `chr(ord('A') + i - 10)` from 10 on. Every label is one character and no two options share one. |
| HakcMenu.OptionRows | tools/generators/menu/hakc_menu.py:61-107 | One framed row per option, numbered from 1, in option order. |
| HakcMenu.AddOptionRows | tools/generators/menu/hakc_menu.py:61-107 | The generators' option loop appends exactly those rows to the lines so far. |
| HakcMenu.GenerateMinimalMenu | tools/generators/menu/hakc_menu.py:54-71 | `generate_minimal_menu` is the newline join of the minimal layout. |
| HakcMenu.GenerateBbsMenu | tools/generators/menu/hakc_menu.py:74-95 | `generate_bbs_menu` is the newline join of the bbs layout. |
| HakcMenu.GenerateModernMenu | tools/generators/menu/hakc_menu.py:98-117 | `generate_modern_menu` is the newline join of the modern layout. |
| HakcMenu.MinimalShape | tools/generators/menu/hakc_menu.py:54-71 | The minimal layout has len(options)+7 entries, the last one empty, so the text ends in a newline. |
| HakcMenu.BbsShape | tools/generators/menu/hakc_menu.py:74-95 | The bbs layout has len(options)+11 entries, the last one empty. |
| HakcMenu.ModernShape | tools/generators/menu/hakc_menu.py:98-117 | The modern layout has len(options)+9 entries, the last one empty. |
| HakcMenu.JoinTrailingEmpty | tools/generators/menu/hakc_menu.py:69-71 | A final empty entry makes the joined text end in `\n`. |
| HakcMenu.RowWidths | tools/generators/menu/hakc_menu.py:62-107 | When every option line fits in width−2, every option row is exactly `width` long. |
| HakcMenu.MinimalWidths | tools/generators/menu/hakc_menu.py:57-68 | When the name and every option line fit in width−2, every row of the minimal menu but the final empty one is `width` long. |
| HakcMenu.BbsWidths | tools/generators/menu/hakc_menu.py:77-92 | The same for the bbs menu, whose title row is centred with `═`. |
| HakcMenu.BbsFrameWidths | tools/generators/menu/hakc_menu.py:77-92 | Every fixed row of the bbs menu is as wide as the menu. |
| HakcMenu.ModernWidths | tools/generators/menu/hakc_menu.py:101-114 | The same for the modern menu. |
| HakcMenu.GenerateSubmenu | tools/generators/menu/hakc_menu.py:120-133 | With style `warez` the submenu fails with the warez menu's error; with any other style it succeeds. |
| HakcMenu.ReplaceNoLine | tools/generators/menu/hakc_menu.py:125-131 | `str.replace` of a pattern no line holds leaves the text unchanged. |
| HakcMenu.ReplaceOneLine | tools/generators/menu/hakc_menu.py:125-131 | `str.replace` of a pattern only one line holds, once, rewrites that line alone. |
| HakcMenu.ReplaceKeyRow | tools/generators/menu/hakc_menu.py:128-131 | Replacing the key on a framed row that alone holds it rewrites that row and leaves all others. |
| HakcMenu.OptionRowsFree | tools/generators/menu/hakc_menu.py:61-107 | An option row holds a quit or exit key only if its option text does; the numbering cannot start or end one. |
| HakcMenu.MinimalSplit | tools/generators/menu/hakc_menu.py:57-69 | At the default width the minimal menu is the rows before, its `q. Quit` row, and the rows after, and only that row holds either key. |
| HakcMenu.BbsSplit | tools/generators/menu/hakc_menu.py:77-93 | At the default width only the bbs menu's exit row holds `<X> eXit to Main`. |
| HakcMenu.ModernSplit | tools/generators/menu/hakc_menu.py:101-115 | At the default width only the modern menu's exit row holds `q  Exit`, and it does not hold `q. Quit`. |
| HakcMenu.BbsSubmenu | tools/generators/menu/hakc_menu.py:127-128 | A bbs submenu is the bbs menu with only its exit line rewritten as `<B> Back to {parent}`, whenever neither the name nor an option holds the exit key. |
| HakcMenu.MinimalSubmenu | tools/generators/menu/hakc_menu.py:129-131 | A minimal submenu is the minimal menu with only its quit line rewritten as `b. Back to {parent}`. The second replacement then finds nothing. |
| HakcMenu.ModernSubmenu | tools/generators/menu/hakc_menu.py:129-131 | A modern submenu, for `modern` or any other unknown style, is the modern menu with only its exit line rewritten as `b  Back to {parent}`. |
| HakcMenu.WarezShape | tools/generators/menu/hakc_menu.py:29-51 | The corrected warez layout, with the separator rule built before it is centred: len(options)+11 entries ending in an empty one. Option k sits at row k+4 with its label, and the quit row follows the options and a blank. |
| HakcMenu.WarezWidths | tools/generators/menu/hakc_menu.py:33-49 | In the corrected warez layout, when the title and every option fit, every row but the final empty one is `width` long. |
| HakcMotd.Colorize | tools/generators/motd/hakc_motd.py:79-94 | Without ANSI the text comes back unchanged. With ANSI, each non-whitespace character at index i is preceded by colour i mod 3 of the drawn gradient, whitespace is copied uncoloured, and a reset ends the text. |
| HakcMotd.PaintedCycle | tools/generators/motd/hakc_motd.py:87-92 | Character k is coloured by its own index wherever it sits in the text. |
| HakcMotd.PaintedAppend | tools/generators/motd/hakc_motd.py:87-92 | Colouring a join is colouring each part, the second numbered on from the first. |
| HakcMotd.PaintedVisible | tools/generators/motd/hakc_motd.py:87-94 | Colouring only inserts escape sequences: what a terminal shows is the text itself. |
| HakcMotd.ColorizeVisible | tools/generators/motd/hakc_motd.py:79-94 | The coloured text plus its reset shows exactly the original text. |
| HakcMotd.GradientsAreCodes | tools/generators/motd/hakc_motd.py:33-51 | Every gradient colour, the reset and cyan are SGR sequences that show nothing. |
| HakcMotd.FormatBox | tools/generators/motd/hakc_motd.py:97-115 | `format_box` is the newline join of the box lines, wrapped in cyan and then reset when ANSI is on. |
| HakcMotd.ContentRows | tools/generators/motd/hakc_motd.py:106-108 | One content row per line, in order. |
| HakcMotd.ContentRowsShape | tools/generators/motd/hakc_motd.py:106-108 | Each content row is `║  line…║`, width+4 long, holding its line from column 3. |
| HakcMotd.WidthFits | tools/generators/motd/hakc_motd.py:99 | width = max_len+4 is at least 4 and fits every line. |
| HakcMotd.BoxShape | tools/generators/motd/hakc_motd.py:97-115 | As written: one row per line between two borders. The borders are width+2 long but every content row is width+4 long, so the content's right edge sticks out two columns. |
| HakcMotd.AlignedBoxShape | tools/generators/motd/hakc_motd.py:97-115 | The corrected box, whose padding is width−len−2: every row, border or content, is width+2 long, and each line sits from column 3. |
| HakcMotd.AlignedRowsShape | tools/generators/motd/hakc_motd.py:106-108 | Corrected content rows are width+2 long and hold their lines. |
| HakcMotd.AlignedFrame | tools/generators/motd/hakc_motd.py:101-109 | The corrected rows between the two borders all have one length. |
| HakcMotd.CyanWrapVisible | tools/generators/motd/hakc_motd.py:113-114 | The cyan wrapping of the box shows nothing extra. |
| HakcMotd.MotdData.AddMotd | tools/generators/motd/hakc_motd.py:188-198 | A message already listed is refused: False, the data unchanged and nothing saved. Otherwise the list is created if absent, the message appended, the data saved once, and True returned. |
| HakcMotd.AddAppendsOnce | tools/generators/motd/hakc_motd.py:192-197 | A new message is appended exactly once, after everything that was listed. |
| HakcMotd.AddIdempotent | tools/generators/motd/hakc_motd.py:188-198 | Adding the same message twice is adding it once. |
| HakcMotd.AddKeepsDistinct | tools/generators/motd/hakc_motd.py:188-198 | A list without repetitions stays without them. |
| HakcMotd.MotdData.ListMotds | tools/generators/motd/hakc_motd.py:201-212 | `list_motds` is the newline join of the header, an empty line and the numbered lines. |
| HakcMotd.Numbered | tools/generators/motd/hakc_motd.py:205-210 | Line k is the prefix of number k+1 followed by MOTD k. |
| HakcMotd.ListShape | tools/generators/motd/hakc_motd.py:201-212 | The listing has len(motds)+2 lines, the second empty. Line k+2 starts with the `[%3d] ` prefix of k+1 and ends with MOTD k. |
| HakcMotd.NumberTagsDiffer | tools/generators/motd/hakc_motd.py:206 | Below 1000 every `[%3d] ` tag is six characters long, and different numbers get different tags. |
| HakcMotd.TagField | tools/generators/motd/hakc_motd.py:206 | The three columns of a tag, stripped of their leading blanks, are the number. |
| HakcMotd.PrefixVisible | tools/generators/motd/hakc_motd.py:206-208 | With ANSI the listing line shows the same text as without. |
| HakcerMenu.SortBanners | tools/docs/hakcer_menu.py:62 | The sort by `(name != "banner_full.txt", name)` is a permutation of the names, ordered by that key. |
| HakcerMenu.Insert | tools/docs/hakcer_menu.py:62 | Inserting one name into a key-sorted list adds exactly that name and keeps the list sorted. |
| HakcerMenu.KeyLeTotal | tools/docs/hakcer_menu.py:62 | The sort key is a total order. |
| HakcerMenu.KeyLeTrans | tools/docs/hakcer_menu.py:62 | The sort key's order is transitive. |
| HakcerMenu.TxtNames | tools/docs/hakcer_menu.py:61 | `glob("*.txt")` keeps exactly the entries ending in `.txt`. |
| HakcerMenu.BannerOrder | tools/docs/hakcer_menu.py:55-63 | For a directory the list holds exactly its `.txt` entries. `banner_full.txt` comes first when present, and the rest follow in name order. |
| HakcerMenu.NonDirectoryBanners | tools/docs/hakcer_menu.py:57-63 | A file gives itself alone; a missing path gives nothing. |
| HakcerMenu.AutoSplit | tools/docs/hakcer_menu.py:66-77 | A zero count raises ZeroDivisionError and a negative one gives no sections. A positive count n gives exactly the n sections of the split specification. |
| HakcerMenu.SplitSpec | tools/docs/hakcer_menu.py:66-77 | Section i starts at i·max(1, total//n). It ends at min((i+1)·chunk, total), the last one at total. |
| HakcerMenu.SplitNames | tools/docs/hakcer_menu.py:75 | The sections are named "Section 1" to "Section n", all different. |
| HakcerMenu.SplitContiguous | tools/docs/hakcer_menu.py:70-75 | With at least as many lines as sections, the sections are nonempty, start at 0, end at total, and each ends where the next begins. |
| HakcerMenu.SplitCovers | tools/docs/hakcer_menu.py:70-75 | With at least as many lines as sections, every row lies in section min(row // chunk, n−1). |
| HakcerMenu.NumSections | tools/docs/hakcer_menu.py:153 | `min(6, max(2, lines // 5))` is between 2 and 6. |
| HakcerMenu.AutoDefs | tools/docs/hakcer_menu.py:151-158 | A non-default banner is cut into 2 to 6 sections. With at least two lines they tile its rows, each nonempty. |
| HakcerMenu.Themed | tools/docs/hakcer_menu.py:144-158 | One component per definition, in order. |
| HakcerMenu.BuildComponents | tools/docs/hakcer_menu.py:146-158 | The `enumerate(defs)` loop builds exactly the themed components. |
| HakcerMenu.ThemedFresh | tools/docs/hakcer_menu.py:146-158 | Component i has index i, effect 0, frame 0 and is animating, with the definition's rows. Its theme is i mod 8, so the themes cycle with period 8. |
| HakcerMenu.TrimBlankShape | tools/docs/hakcer_menu.py:138-139 | Trimming keeps a prefix that is empty or ends in a non-blank line, and drops only blank lines. |
| HakcerMenu.BlankIsStripEmpty | tools/docs/hakcer_menu.py:138 | A line counts as blank exactly when `strip()` leaves nothing. |
| HakcerMenu.DropTrailingBlank | tools/docs/hakcer_menu.py:137-139 | The `pop` loop leaves exactly the trimmed lines. |
| HakcerMenu.ReadBanner | tools/docs/hakcer_menu.py:133-159 | Reading one file gives its trimmed lines and their width, and a nonempty, well-formed component list. |
| HakcerMenu.Tester.constructor | tools/docs/hakcer_menu.py:101-123 | The files found at the path, else those of the default directory. Index 0, component 0, no dropdown, animation on. With files, the first one is shown as `load_banner(0)` loads it: its trimmed lines, their width and its components. With none, the notice and the one "Empty" component, with no width set. |
| HakcerMenu.Tester.LoadBanner | tools/docs/hakcer_menu.py:125-161 | With no files: the notice and one "Empty" component, nothing else changed. Otherwise the index becomes idx mod the file count, that file is shown as loaded, and component 0 is selected. |
| HakcerMenu.LastOwner | tools/docs/hakcer_menu.py:193-199 | The owner is the last component whose range holds the row, or the first component when none does. |
| HakcerMenu.Tester.GetComponentForPosition | tools/docs/hakcer_menu.py:193-199 | The loop returns the component `LastOwner` picks. |
| HakcerMenu.Shadowed | tools/docs/hakcer_menu.py:193-199 | A component lying inside a later one never owns a row, except as the row-0 fallback. |
| HakcerMenu.DefaultTesterAsciiHidden | tools/docs/hakcer_menu.py:193-199 | In the default layout "Border Frame" (rows 21-31) covers "TESTER ASCII" (rows 22-30), so no row is ever attributed to the latter. |
| HakcerMenu.Step | tools/docs/hakcer_menu.py:475-493 | `(i ± 1) % n` with Python's modulo stays in [0, n). |
| HakcerMenu.StepInverse | tools/docs/hakcer_menu.py:473-493 | Down undoes up and up undoes down. Up from 0 wraps to n−1 and down from n−1 wraps to 0. |
| HakcerMenu.Tester.Tab | tools/docs/hakcer_menu.py:448-466 | Tab cycles: banner list (only when there is a choice), components, effects, themes, closed. Each list opens at the current entry, and nothing else changes. |
| HakcerMenu.Tester.Up | tools/docs/hakcer_menu.py:473-482 | With a list open the cursor moves back one entry modulo that list's length; nothing else changes. |
| HakcerMenu.Tester.Down | tools/docs/hakcer_menu.py:484-493 | With a list open the cursor moves on one entry modulo the list's length; nothing else changes. |
| HakcerMenu.Tester.Select | tools/docs/hakcer_menu.py:495-511 | Enter applies the entry under the cursor and closes the dropdown: it loads the banner, selects the component, or sets the current component's effect (resetting its frame) or theme. With no dropdown open it reports `go`. The cursor and the animation flag never change, and outside the banner case neither do the canvas, its width or the banner index. |
| HakcerMenu.Tester.Escape | tools/docs/hakcer_menu.py:469-471 | Escape closes whatever dropdown is open and changes nothing else. |
| HakcerMenu.Tester.ToggleAll | tools/docs/hakcer_menu.py:514-516 | Space flips the global animation flag and changes nothing else. |
| HakcerMenu.Tester.StopCurrent | tools/docs/hakcer_menu.py:518-521 | `s` flips the animation flag of the selected component only; the other components and fields stay. |
| HakcerMenu.Tester.StartAll | tools/docs/hakcer_menu.py:523-528 | `a` sets every component animating, each otherwise as it was, and turns the global animation on. |
| HakcerMenu.Tester.BannerSelect | tools/docs/hakcer_menu.py:530-535 | `b` opens the banner list at the current banner when there is more than one banner, and otherwise changes nothing. |
| RenderGifs.ParseFrame | hakcai_highart/render_gifs.py:60-95 | `parse_frame` returns the frame grid, with exactly num_rows rows of exactly num_cols cells. Negative counts give none. |
| RenderGifs.Frame | hakcai_highart/render_gifs.py:66-94 | The grid has max(0, num_rows) rows of max(0, num_cols) cells. Row k is cut from line k of `split('\n')`, or from "" past the last line. |
| RenderGifs.ParseRow | hakcai_highart/render_gifs.py:72-91 | The while loop over a row leaves the column map holding exactly the row's scanned cells, column by column. |
| RenderGifs.FillRow | hakcai_highart/render_gifs.py:92-93 | The column loop reads each column's cell from the map, blank (None,0,0,0) where it has none. |
| RenderGifs.MatchAt | hakcai_highart/render_gifs.py:57-77 | The truecolour pattern matched at an index starts with `ESC[38;2;` and ends inside the row. |
| RenderGifs.NumberAt | hakcai_highart/render_gifs.py:57 | `(\d+)` followed by its delimiter reads a nonempty greedy digit run, ending just past the delimiter. |
| RenderGifs.DigitRun | hakcai_highart/render_gifs.py:57 | The greedy digit run ends at the row's end or at a non-digit. |
| RenderGifs.DecimalOfNat | hakcai_highart/render_gifs.py:79 | `int()` of a number's decimal digits gives the number back. |
| RenderGifs.FindFrom | hakcai_highart/render_gifs.py:85 | `str.find('m', i)` is the first index from i on holding `m`, or −1 when there is none. |
| RenderGifs.StepAt | hakcai_highart/render_gifs.py:76-91 | Every turn of the loop strictly advances `i` and stays within the row. |
| RenderGifs.ScanColoured | hakcai_highart/render_gifs.py:77-82 | `ESC[38;2;R;G;Bm` + a character + `ESC[0m` yields the cell (char, R, G, B), leading zeros allowed, and takes one column. The rest is scanned as it would be alone. |
| RenderGifs.StepColoured | hakcai_highart/render_gifs.py:77-82 | At a coloured character the loop takes the whole run as one match. |
| RenderGifs.MatchLaid | hakcai_highart/render_gifs.py:57-79 | The pattern matches a laid-out coloured character and reads its three fields in decimal. |
| RenderGifs.StepOfMatch | hakcai_highart/render_gifs.py:77-82 | Wherever the pattern matches, the loop takes that match before anything else. |
| RenderGifs.ScanOtherEscape | hakcai_highart/render_gifs.py:83-86 | Any other escape sequence is skipped through its next `m` and takes no column. |
| RenderGifs.OtherSequenceNoMatch | hakcai_highart/render_gifs.py:57-83 | A sequence not opening with `[38;2;` never matches the truecolour pattern. |
| RenderGifs.ScanLoneEscape | hakcai_highart/render_gifs.py:85-86 | An escape with no later `m` skips just that character. |
| RenderGifs.MatchHoldsM | hakcai_highart/render_gifs.py:57-86 | Every match holds an `m` at or after its start. |
| RenderGifs.ScanPlain | hakcai_highart/render_gifs.py:87-91 | A plain character yields itself uncoloured, (ch,0,0,0), and takes one column. |
| RenderGifs.ScanShift | hakcai_highart/render_gifs.py:76-91 | What the loop scans after a prefix is what the rest scans to on its own. |
| RenderGifs.ScanEncodeRow | hakcai_highart/render_gifs.py:57-91 | Encoding a row of cells, coloured as truecolour runs or plain when uncoloured, and scanning it gives the cells back. |
| RenderGifs.ColumnsCut | hakcai_highart/render_gifs.py:92-93 | A row keeps its first num_cols scanned cells padded with blanks; later columns are dropped. |
| RenderGifs.RowsPastEnd | hakcai_highart/render_gifs.py:69 | Rows past the last line of the frame are all blank. |
| RenderGifs.Subsample | hakcai_highart/render_gifs.py:173-178 | At most forty frames are all kept as they are; otherwise exactly forty frames are kept. |
| RenderGifs.SampleIndices | hakcai_highart/render_gifs.py:173-177 | min(n, 40) indices are kept. |
| RenderGifs.SampleSpread | hakcai_highart/render_gifs.py:176-177 | Past forty frames, ⌊i·(n−1)/39⌋ gives exactly forty indices. They run from 0 to n−1, stay below n and strictly increase, so no frame is taken twice. |
| RenderGifs.SampleAll | hakcai_highart/render_gifs.py:173-174 | At most forty frames are all kept, in order. |
| RuleEngine.EmptyMatchAcceptsAll | tools/sync/hakc_assets.py:301-327 | A rule whose `match` object is empty accepts every file. |
| RuleEngine.SquareNeedsSize | tools/sync/hakc_assets.py:309-311 | A `square` rule never accepts a file whose pixel size the image tool could not read (width or height 0). |
| RuleEngine.InsertByKey | tools/sync/hakc_assets.py:333 | Inserting one rule into an order adds exactly that rule, once. |
| RuleEngine.InsertSorted | tools/sync/hakc_assets.py:333 | Inserting a rule placed before all the rest of the order keeps the order sorted by (priority, position). The missing priority is 99. |
| RuleEngine.PriorityOrder | tools/sync/hakc_assets.py:333 | `sorted(rules, key=priority)` visits every rule exactly once. It goes by priority, and ties keep their list order (the sort is stable). |
| RuleEngine.FirstIn | tools/sync/hakc_assets.py:335-337 | The loop stops at the first rule of the order that matches. With no match, every rule of the order fails. |
| RuleEngine.FirstMatch | tools/sync/hakc_assets.py:333-339 | The chosen rule matches. Every other matching rule has a larger priority, or the same one and a later position. There is no choice exactly when no rule matches. |
| RuleEngine.FirstInSorted | tools/sync/hakc_assets.py:333-339 | Over any order holding each rule once and sorted by priority, the first match is that minimal matching rule. |
| RuleEngine.Matches | tools/sync/hakc_assets.py:301-327 | Entry i says whether rule i's `match` object accepts the file. |
| RuleEngine.DestinationIsFirstMatch | tools/sync/hakc_assets.py:329-339 | No matching rule gives no destination. Otherwise the destination is that of the priority-first matching rule. |
| RuleEngine.FirstMatchUnique | tools/sync/hakc_assets.py:333-339 | At most one rule is priority-first among the matches, so the destination is well defined. |
| HakcAssets.ShouldIgnore | tools/sync/hakc_assets.py:220-228 | A file is ignored exactly when some pattern ignores its name. A pattern `*.x` matches by suffix; any other pattern must equal the name. |
| HakcAssets.GetDestination | tools/sync/hakc_assets.py:329-344 | An ignored file has no destination. Otherwise the destination is that of the priority-first matching rule, and there is none when no rule matches. |
| HakcAssets.AssetTypePolicy | tools/sync/hakc_assets.py:267-299 | Each category holds exactly the files the policy sends there. Ignored files are `other`. Icons need "icon" in the stem and an icon format, and video extensions give media. Text extensions give banners (a banner word in the stem, or a block character in the text) or `other`. Images and slide decks follow. |
| HakcAssets.ExtensionSetsApart | tools/sync/hakc_assets.py:276-297 | The video, text, image and PDF extension lists are apart, so the order of the tests only matters for icons. |
| HakcAssets.NextNewlineFirst | tools/sync/hakc_assets.py:243 | `[^\n]*\n` stops at the first line break after the fence, or there is none. |
| HakcAssets.NextFenceFirst | tools/sync/hakc_assets.py:243 | The lazy `(.*?)` ends at the first triple backtick, or there is none. |
| HakcAssets.BlockAtFenceFree | tools/sync/hakc_assets.py:243-245 | A block matched at a position lies in the text and holds no triple backtick. |
| HakcAssets.BlocksAreFenceFree | tools/sync/hakc_assets.py:243-245 | Every block `re.findall` yields lies in the text and holds no triple backtick. |
| HakcAssets.NoBackticksNoBlocks | tools/sync/hakc_assets.py:242-245 | Text without triple backticks yields no block. A `~~~` fence is not matched, although the comment says it is. |
| HakcAssets.NoFenceAnywhere | tools/sync/hakc_assets.py:242-245 | A README without a fence yields no blocks. |
| HakcAssets.KeptBlocksMembers | tools/sync/hakc_assets.py:248-256 | A block survives exactly when its stripped text is ASCII art, longer than 20 characters and free of every code indicator. |
| HakcAssets.KeptBlocksStep | tools/sync/hakc_assets.py:248-256 | One more block adds its stripped text exactly when it passes that test. |
| HakcAssets.BannerNamesDistinct | tools/sync/hakc_assets.py:258-262 | `readme_banner.txt`, `readme_banner_2.txt`, … are pairwise distinct. |
| HakcAssets.NumberingMeaning | tools/sync/hakc_assets.py:258-262 | The k-th kept block is named with number k + 1, in document order. |
| HakcAssets.ExtractStep | tools/sync/hakc_assets.py:247-262 | A kept block is numbered next. A skipped block leaves the numbering and the counter as they were. |
| HakcAssets.NumberingSnoc | tools/sync/hakc_assets.py:258-262 | Numbering one more kept block gives it the next number. |
| HakcAssets.KeyIdentifiesAsset | tools/sync/hakc_assets.py:514-520 | The sync path is `repos/` followed by the key. Two assets share a key exactly when they share type, source and name (sources hold no slash). |
| HakcAssets.ListingAssetsStep | tools/sync/hakc_assets.py:466-491 | Each entry of a directory listing adds its asset, if it is one, in listing order. |
| HakcAssets.ScanAssetsCategorised | tools/sync/hakc_assets.py:404-493 | Every asset a scan yields is of a real category (never `other`) and comes from the scanned repository. |
| HakcAssets.RootCategorised | tools/sync/hakc_assets.py:417-438 | Root assets are categorised, from the repository, with their path equal to their name. |
| HakcAssets.ListingCategorised | tools/sync/hakc_assets.py:466-491 | The assets of one listing are categorised and from the repository. |
| HakcAssets.DirCategorised | tools/sync/hakc_assets.py:465-491 | Each asset of the source directories is categorised and from the repository. |
| HakcAssets.BannerAssetShape | tools/sync/hakc_assets.py:449-460 | A README banner asset has path `README.md#name` and sha `readme-sha_name`. It has no URL, is a banner, and carries its text and its length. |
| HakcAssets.BannerAssetsStep | tools/sync/hakc_assets.py:449-460 | One virtual asset per kept block, in order. |
| HakcScan.ExtractBanners | tools/sync/hakc_assets.py:236-265 | `_extract_banners_from_readme` returns the kept blocks of the fenced matches, numbered from 1 in document order. |
| HakcScan.NumberBlocks | tools/sync/hakc_assets.py:247-263 | The loop over the matches strips, filters and numbers. |
| HakcScan.ScanRoot | tools/sync/hakc_assets.py:417-438 | The root loop yields the root assets, the source directories to descend into (lower-cased name matched) and the last README seen. |
| HakcScan.ScanListing | tools/sync/hakc_assets.py:466-491 | The loop over one directory's listing yields its assets. Small `.txt` and extension-less files are judged with their decoded text. |
| HakcScan.ReadmeBanners | tools/sync/hakc_assets.py:440-458 | One virtual banner asset per kept block of the decoded README. |
| HakcScan.ScanRepo | tools/sync/hakc_assets.py:404-493 | An excluded repository yields nothing. Otherwise the scan yields the root assets, then the README banners, then the assets of the source directories. |
| HakcScan.ScanDirs | tools/sync/hakc_assets.py:465-491 | The source directories are scanned in the order they were listed. |
| Dicts.Get | tools/sync/hakc_assets.py:116-118 | `dict.get` finds a value exactly when the key is present, and it is the value stored there. |
| Dicts.Put | tools/sync/hakc_assets.py:112-114 | `d[k] = v` keeps an existing key's place, and a new key goes last. |
| Dicts.GetPut | tools/sync/hakc_assets.py:112-118 | After `d[k] = v`, `get(k)` is v and every other key reads as before. |
| Dicts.GetRemove | tools/sync/hakc_assets.py:116-122 | After `pop(k, None)`, `get(k)` is None and every other key reads as before. |
| Manifests.GoodPrefix | tools/sync/hakc_assets.py:92-100 | `_load` reads entries up to the first one that is not a complete record. |
| Manifests.Written | tools/sync/hakc_assets.py:102-110 | `save` writes every entry, in order, as a complete record under its file name. |
| Manifests.PutAllUnique | tools/sync/hakc_assets.py:96-98 | Loading complete records builds a dictionary: no key twice. |
| Manifests.LoadedUnique | tools/sync/hakc_assets.py:92-100 | Loading whatever is stored yields a dictionary: missing files, unreadable JSON and bad entries included. |
| Manifests.PutAllFresh | tools/sync/hakc_assets.py:96-98 | Storing records under distinct keys keeps them in order. |
| Manifests.SaveLoad | tools/sync/hakc_assets.py:92-110 | Loading what `save` wrote gives back the same entries in the same order. |
| Manifests.LoadStopsAtBadEntry | tools/sync/hakc_assets.py:95-100 | A bad entry raises inside the `try`. The entries before it stay loaded and none after it is read. |
| Manifests.Manifest.Load | tools/sync/hakc_assets.py:87-100 | `Manifest(path)` holds what `_load` reads from the path. |
| Manifests.Manifest.Add | tools/sync/hakc_assets.py:112-114 | `add` inserts or replaces the entry under its file name. Every other name reads as before. |
| Manifests.Manifest.Get | tools/sync/hakc_assets.py:116-118 | `get` returns an entry exactly when one is stored under the name, and it is that entry. |
| Manifests.Manifest.Remove | tools/sync/hakc_assets.py:120-122 | `remove` drops the name, keeps every other entry, and ignores a missing name. |
| Manifests.Manifest.Save | tools/sync/hakc_assets.py:102-110 | `save` writes the time stamp, the entry count and every entry. |
| AssetSync.Disk.constructor | tools/sync/hakc_assets.py:128-139 | The disk holds the given files, manifests and state file, and no master manifest yet. |
| AssetSync.ToSync | tools/sync/hakc_assets.py:571-573 | The list to sync holds exactly the assets that need a sync: no local file, or a recorded hash other than the asset's. |
| AssetSync.Successful | tools/sync/hakc_assets.py:581-595 | The assets kept are exactly those in the list to sync whose download works. |
| AssetSync.SuccessfulStep | tools/sync/hakc_assets.py:583-595 | One more asset is kept exactly when its download works. |
| AssetSync.RecordAllSnoc | tools/sync/hakc_assets.py:549-566 | Recording one more download records it after the others. |
| AssetSync.RecordStopsNeed | tools/sync/hakc_assets.py:522-566 | After a successful download the asset needs no sync. Its entry is in its category's manifest, and no other manifest changes. |
| AssetSync.RecordAllKeys | tools/sync/hakc_assets.py:551-552 | A run of downloads records a hash for each key it fetched and leaves every other key as it was. |
| AssetSync.RecordAllRecords | tools/sync/hakc_assets.py:551-552 | With distinct keys, every fetched asset's hash is recorded afterwards. |
| AssetSync.RecordAllStopsNeed | tools/sync/hakc_assets.py:522-565 | After the run, no fetched asset needs a sync. |
| AssetSync.SaveEachPointwise | tools/sync/hakc_assets.py:598-599 | Saving the cached manifests writes each once and leaves the rest of the disk alone. |
| AssetSync.SaveEachAll | tools/sync/hakc_assets.py:598-599 | Saving all cached manifests overlays exactly their files on the disk. |
| AssetSync.Manager.constructor | tools/sync/hakc_assets.py:128-155 | The state comes from the state file, or is the default when there is none or it cannot be read. No manifest is cached yet. |
| AssetSync.Manager.GetManifest | tools/sync/hakc_assets.py:165-170 | A cached manifest is returned as it is. Otherwise a fresh one is loaded from that category's file and cached. |
| AssetSync.Manager.DownloadAsset | tools/sync/hakc_assets.py:531-569 | The result is whether the download works. On success the file exists, the key's hash is set and the manifest entry is added. On failure nothing changes. |
| AssetSync.Manager.RecordDownload | tools/sync/hakc_assets.py:549-566 | The bookkeeping of a successful download, as `Record` states it. |
| AssetSync.Manager.AddEntry | tools/sync/hakc_assets.py:555-564 | `manifest.add` on a cached manifest updates that category's entries only. |
| AssetSync.Manager.SaveManifests | tools/sync/hakc_assets.py:598-599 | Every cached manifest is written to its file, stamped `now`. |
| AssetSync.Manager.DownloadAll | tools/sync/hakc_assets.py:583-595 | The loop keeps the assets whose download works, in order, and the state records exactly them. |
| AssetSync.Manager.DownloadNext | tools/sync/hakc_assets.py:583-595 | One turn of the loop extends what has worked so far. |
| AssetSync.Manager.Sync | tools/sync/hakc_assets.py:571-607 | The list to sync is taken against the state on entry. A dry run or an empty list downloads nothing. When nothing worked, nothing changes. Otherwise the manifests, the master manifest and the state (with `last_sync`) are written. |
| AssetSync.Manager.Persist | tools/sync/hakc_assets.py:597-605 | The final writes: the manifests, the master manifest over the directory listing, and the state with `last_sync` set. |
| MasterManifest.Objects | tools/sync/hakc_assets.py:633-648 | Entries are read up to the first that is not an object. Its `.get` raises and ends that directory. |
| MasterManifest.DirTriples | tools/sync/hakc_assets.py:633-646 | A directory contributes one (category, repository, file) triple per entry, in order. |
| MasterManifest.BuildMasterManifest | tools/sync/hakc_assets.py:609-650 | The master manifest is the scan of the listing of `repos/`, with each `manifest.json` as stored. |
| MasterManifest.IndexEntries | tools/sync/hakc_assets.py:633-648 | The loop over one manifest indexes its leading object entries. |
| MasterManifest.AddEntryIndexes | tools/sync/hakc_assets.py:634-646 | Adding one file indexes exactly that file in both indices and counts it once. |
| MasterManifest.FillTypeIndexes | tools/sync/hakc_assets.py:633-646 | Filling a category indexes exactly its triples and counts each. |
| MasterManifest.StartTypeIndexes | tools/sync/hakc_assets.py:628-631 | Starting a category's summary empties its lists and touches nothing else. |
| MasterManifest.MasterTotal | tools/sync/hakc_assets.py:646 | `total_assets` is the number of files read across the readable category manifests. |
| MasterManifest.ByRepoIndex | tools/sync/hakc_assets.py:634-644 | `by_repo[r][t]` lists exactly the files of category t from repository r ("unknown" when missing). |
| MasterManifest.ProcessedCategories | tools/sync/hakc_assets.py:620-627 | Every indexed triple names a directory of the listing. |
| MasterManifest.TypesIndex | tools/sync/hakc_assets.py:628-637 | With distinct directory names, `types[t].repos[r]` lists exactly the same files. |
| Organize.LoadRules | tools/sync/organize.py:34-40 | Without a rules file the organizer fails at construction. Otherwise it works with the rules the file holds. |
| Organize.ShouldIgnore | tools/sync/organize.py:91-100 | A file is ignored exactly when some pattern ignores it. A pattern `*.x` matches by name suffix; any other pattern matches the exact name or a prefix of the relative path. |
| Organize.IgnoresAtLeastSync | tools/sync/organize.py:91-100 | Whatever the sync engine's name-only check ignores, the organizer ignores too. |
| Organize.PrefixPatternIgnores | tools/sync/organize.py:96-99 | A non-`*.` pattern that starts the relative path ignores the file. So the empty pattern ignores every file, which the sync engine's check does not. |
| Organize.GetDestinationMeaning | tools/sync/organize.py:134-146 | An ignored file has no destination. Otherwise the destination is that of the priority-first matching rule (missing priority 99), and there is none when no rule matches. |
| Organize.ReportMeaning | tools/sync/organize.py:171-186 | A file is reported exactly when it is not ignored and has a non-empty suggestion. In strict mode the suggestion must differ from its directory. Otherwise the directory must have a non-empty extension list that lacks the file's extension. The report is (file, directory, suggestion). |
| Organize.FilterMapMembers | tools/sync/organize.py:171-186 | The kept values are exactly the present results at the elements. |
| Organize.DirReportsFilter | tools/sync/organize.py:171-186 | A directory's reports are its entries filtered through the report test, in order. |
| Organize.DirReportsMembers | tools/sync/organize.py:171-186 | A directory's reports are the reports of its entries, and nothing else. |
| Organize.AllReportsDirs | tools/sync/organize.py:164-169 | Every report names a configured directory that exists. |
| Organize.CheckMisplaced | tools/sync/organize.py:156-188 | `check_misplaced` visits the configured directories in order, skips the missing ones, and returns their reports. |
| Organize.CheckDir | tools/sync/organize.py:171-186 | The inner loop collects one directory's reports in listing order. |
| Organize.RootFiles | tools/sync/organize.py:148-154 | `get_root_files` keeps at most the root's entries. |
| Organize.RootFilesMembers | tools/sync/organize.py:148-154 | A root file is listed exactly when it is a regular file of the root that is not ignored. |
| Organize.PlannedFilter | tools/sync/organize.py:194-213 | The moves are the root files filtered through "has a destination, and a `y` when asking", in order. |
| Organize.PlannedStep | tools/sync/organize.py:194-213 | One more root file adds its move `(file, root/dest/name)` when it has one. |
| Organize.PlannedSound | tools/sync/organize.py:194-213 | Each planned move takes a file with a destination (accepted when asking) into that destination. |
| Organize.PlannedComplete | tools/sync/organize.py:194-213 | Each root file with a destination (accepted when asking) has its move planned. |
| Organize.MovedSnoc | tools/sync/organize.py:210 | One more move takes its source away and adds its target. |
| Organize.OrganizeStep | tools/sync/organize.py:205-213 | One pass keeps the tree as the moves so far leave it. A dry run leaves it as it was. |
| Organize.MovedTargets | tools/sync/organize.py:210-213 | Each target exists afterwards unless a later move takes it away again. |
| Organize.Tree.constructor | tools/sync/organize.py:29-32 | The tree holds the given files. |
| Organize.GetRootFiles | tools/sync/organize.py:148-154 | The loop of `get_root_files` yields the root files. |
| Organize.OrganizeFile | tools/sync/organize.py:195-213 | One pass yields the file's move, if it has one, and performs it unless this is a dry run. |
| Organize.Organize | tools/sync/organize.py:190-215 | `organize` returns the planned moves in order. A dry run moves nothing; otherwise the tree is the files after those moves. |
| SyncOrg.FirstCategory | tools/sync/sync_org.py:106-107 | The first category in dict order whose list holds the extension, or none exactly when no category does. |
| SyncOrg.FirstCategoryWins | tools/sync/sync_org.py:106-115 | When a category holds the extension, that first category is the type, also for `.txt`, whatever the name or the text. |
| SyncOrg.GifAndIcoAreImages | tools/sync/sync_org.py:100-115 | `.gif` and `.ico` are images, never media. |
| SyncOrg.TextIsBanner | tools/sync/sync_org.py:106-115 | Every `.txt`, `.ans`, `.asc` and `.nfo` file is a banner, whatever its name or text. |
| SyncOrg.VideoIsMedia | tools/sync/sync_org.py:100-115 | `.mp4`, `.webm` and `.mov` give media. |
| SyncOrg.MediaIsVideo | tools/sync/sync_org.py:100-121 | And only they do. |
| SyncOrg.UnknownExtension | tools/sync/sync_org.py:117-121 | A file whose extension no category lists is a banner exactly when its lower-cased name holds a banner pattern, and `other` otherwise. |
| SyncOrg.LocalPathShape | tools/sync/sync_org.py:235-249 | The local path is `repos/<repo>/<images, banners, media, docs or other>/<name>`. It is determined by repository, category directory and name, and for slash-free parts it determines them. Two assets differing only in path share a local file. |
| SyncOrg.RecordEffect | tools/sync/sync_org.py:251-281 | After a download is recorded, with its file present, the asset needs no sync. Every other (repository, path) keeps its hash, and no repository map disappears. |
| SyncOrg.RecordAllOthers | tools/sync/sync_org.py:279-281 | A run of downloads changes the hash of no (repository, path) it did not fetch. |
| SyncOrg.ToSync | tools/sync/sync_org.py:288-290 | The list to sync holds exactly the assets that need a sync. |
| SyncOrg.Successful | tools/sync/sync_org.py:298-309 | The assets recorded are exactly those on the list whose fetch works. |
| SyncOrg.SuccessfulStep | tools/sync/sync_org.py:298-308 | One more asset is recorded exactly when its fetch works. |
| SyncOrg.RecordAllSnoc | tools/sync/sync_org.py:279-281 | Recording one more download records it after the others. |
| SyncOrg.LocalPathsSnoc | tools/sync/sync_org.py:267-276 | One more download adds its local file. |
| SyncOrg.CollectedSkipsSelf | tools/sync/sync_org.py:221-233 | When each repository's scan reports its own assets, nothing collected comes from `haKCAssets`. |
| SyncOrg.OrgDisk.constructor | tools/sync/sync_org.py:62-67 | The disk holds the given files and state file. |
| SyncOrg.OrgScanner.constructor | tools/sync/sync_org.py:62-77 | The state comes from the state file, or is the default when there is none or it cannot be read. No assets are held yet. |
| SyncOrg.OrgScanner.ScanAll | tools/sync/sync_org.py:210-233 | `scan_all` collects each visited repository's assets in order and skips the scanner's own repository. It returns and keeps that list. |
| SyncOrg.OrgScanner.DownloadAsset | tools/sync/sync_org.py:265-286 | The result is whether the fetch works. On success the file exists, the repository map is made if missing, and only `[repo][path]` is set. |
| SyncOrg.OrgScanner.DownloadAll | tools/sync/sync_org.py:298-308 | The loop records exactly the assets whose fetch works. |
| SyncOrg.OrgScanner.DownloadNext | tools/sync/sync_org.py:298-308 | One turn of the loop extends what has worked so far. |
| SyncOrg.OrgScanner.Sync | tools/sync/sync_org.py:288-315 | `sync` returns every asset that needed a sync, whether its download worked or not. With none or in a dry run nothing changes. An applied run saves the state with `last_sync` set even when every download failed. |
| PyStr.Center | tools/generators/menu/hakc_menu.py:59 | `str.center` gives max(len, width) characters, and a text at least the width is unchanged. A shorter text sits between two runs of the fill character that differ by at most one. The left run is the longer one exactly when both the margin and the width are odd, as in CPython. |
| PyStr.LJust | tools/generators/menu/hakc_menu.py:64 | `str.ljust` keeps the text and pads it with spaces to max(len, width). |
| PyStr.LStrip | tools/sync/hakc_assets.py:249 | Leading whitespace is dropped, and nothing else. |
| PyStr.RStrip | tools/sync/hakc_assets.py:249 | Trailing whitespace is dropped, and nothing else. |
| PyStr.JoinSplit | hakcai_highart/render_gifs.py:66 | Joining the pieces of `split(d)` with d gives the text back. |
| PyStr.SplitJoin | hakcai_highart/render_gifs.py:66 | Splitting a join of separator-free pieces gives the pieces back. |
| PyStr.NatToStringInjective | tools/sync/hakc_assets.py:262 | `str(n)` tells distinct numbers apart. |
| PyStr.ReplaceJoinedLines | tools/generators/menu/hakc_menu.py:125-131 | Replacing a line-break-free pattern in the joined menu is replacing it line by line. |
| PyPath.RFind | tools/sync/hakc_assets.py:272-273 | `rfind` gives the last index holding the character, or −1. |
| PyPath.StemSuffix | tools/sync/hakc_assets.py:272-273 | The stem followed by the suffix is the name. A non-empty suffix is one dot followed by at least one non-dot character. |
| PyPath.SiblingName | tools/generators/banner/hakc_banner.py:671 | The name of `parent / child` is the child, for a slash-free child. |
| PyPath.NameHasNoSlash | tools/sync/hakc_assets.py:222 | A path's name holds no slash. |

## Left out

- I/O: a filesystem, the `gh`, `curl` and `sips` subprocesses, and the network. They are inputs: directory listings as sequences of records, a set of existing paths, the set of assets whose fetch works, an optional pixel size, and the stored content of each file as an `Option`.
- JSON parsing, JSON writing and base64 decoding. A file that cannot be read or parsed is `None`, which is the fallback the source takes in `_load`, `_load_state` and the README fetch.
- The clock. Timestamps are opaque strings given as parameters.
- AssetSync.Manager.Sync: one `now` stands for every `datetime.now()` of a run. That covers each manifest entry's `synced_at` (tools/sync/hakc_assets.py:562), the master manifest's `generated` (612) and `last_sync` (604); in the source these can differ.
- AssetSync.Manager.Sync: the listing of `repos/` that the master manifest is rebuilt from is a parameter. It is not tied to the category files just saved, so no contract says that the rebuilt master manifest lists the assets that were just synced.
- The watch loops of the three sync tools (`time.sleep`, `KeyboardInterrupt`). They only repeat the pipeline.
- `scan_all_repos`, `organize`, `get_root_files`, `status` and `show_manifest` of tools/sync/hakc_assets.py. The organizer is modelled from tools/sync/organize.py instead.
- `scan_repo` of tools/sync/sync_org.py. SyncOrg.OrgScanner.ScanAll takes each repository's assets as an input and models only the self-skip and the collection order.
- Random choices: `random_decoration`, the `get_random_*` getters, `get_full_motd`, the colour-gradient choice and the art generators (`generate_*_art`, `generate_*_banner`). The template getters and the gradient are parameters where a modelled operation needs them.
- Floating point:
  - `_is_square` is the integer test 9h ≤ 10w ≤ 11h. The float `w/h` agrees with it for all realistic sizes.
  - The subsampling index `int(i * (n - 1) / 39)` is floor division. The float quotient is within one ulp of the exact one, and a non-integer quotient is at least 1/39 from the next integer, so the two agree for any frame count below 2^40.
- The terminal interface and rendering: the prompt_toolkit TUI, mouse handling and effect animation of tools/docs/hakcer_menu.py, and `render_parsed_frame`, `rgba_to_gif_frame`, `save_gif`, the font loading and `terminaltexteffects` in hakcai_highart/render_gifs.py.
- HakcerMenu.Tester: the `q` and `g` handlers only end the application (`g` with the result `go`, as enter does with no dropdown open), and the mouse handler is not modelled. Tab, up, down, enter (Tester.Select), escape, space, `s`, `a` and `b` are.
- The interactive modes and `main` of every script, including the `input()` prompts of `organize --interactive`. The accepted answers are a parameter (Organize.Organize).
- The `make_box` and `center_lines` of tools/generators/banner/hakc_banner.py (246-270) are textually identical to those of tools/generators/lib.py. They are modelled once, by GenLib.MakeBox and GenLib.CenterLines.
- PyStr.Lower and PyStr.Upper: they map the ASCII letters only. Python's `str.lower` and `str.upper` use the full Unicode case tables: 'ı' upper-cases to "I", "ß" to "SS", and the Kelvin sign lower-cases to 'k'. Dafny has no Unicode database. This affects the members below.
- GenLib.TextToBigWith and GenLib.TextToBig: a non-ASCII letter whose upper case is an ASCII capital is drawn as a space, not as that capital, and "ß" gives one blank instead of two S glyphs.
- HakcArt.TextToArt and HakcBanner.TextToBig: the same ASCII-only upper-casing.
- RuleEngine.NameContains: stems and patterns are lower-cased for ASCII only, so a stem with the Kelvin sign does not contain "k" here.
- HakcAssets.AssetTypePolicy and SyncOrg.GetFileType: extensions and stems are lower-cased for ASCII only.
- BannerTemplate.IsWordChar: `\w` is the ASCII letters, the digits and `_`. Python's `\w` on `str` also matches other Unicode letters and digits, such as 'é', so `{café}` is a placeholder there and verbatim text here.
- RenderGifs.NumberAt: `\d` is the ASCII digits. Python's `\d` on `str` also matches other Unicode decimal digits, which `int()` reads.
- Organize.OrganizeFile: `dest_path.parent.mkdir(exist_ok=True)` has no `parents=True` (tools/sync/organize.py:209). A destination nested below a missing directory makes the source raise `FileNotFoundError` and end `organize`. The model's move always succeeds.
- PyPath.Sibling and PyPath.Name: paths are not normalised. In Python, `Path("./x.txt").parent / "x_1.txt"` is "x_1.txt", while the model gives "./x_1.txt". Python also drops a trailing slash before taking `name` or `parent`; the model does not.
- HakcMenu.WarezLabelled: option labels past `chr(0x10FFFF)` raise `ValueError`, and that is modelled. A label that would be a surrogate code point cannot be a Dafny `char`; the source would produce it. The corrected warez layout therefore assumes every label is representable.

## Findings

| source | as written | input that shows it | evidently intended | confidence | as-written member | corrected member |
|---|---|---|---|---|---|---|
| tools/generators/motd/hakc_motd.py:106-108 | `padding = width - len(line)`. With `width = max_len + 4`, each content row `║  line + padding ║` is width+4 long while the borders are width+2. | `format_box("a")`: borders of 7 characters, content row of 9. | `padding = width - len(line) - 2`, so every row is width+2 long. | not executed | HakcMotd.BoxShape | HakcMotd.AlignedBoxShape |
| tools/generators/menu/hakc_menu.py:46 | `"─" * (width - 4).center(width - 2)` calls `.center` on the integer `width - 4`, raising `AttributeError`. `generate_warez_menu` never returns, and neither does `generate_submenu` in its default style. | `generate_warez_menu("X", [])` | `("─" * (width - 4)).center(width - 2)`: a centred rule inside the frame, making a menu of len(options)+11 rows of width `width`. | not executed | HakcMenu.GenerateWarezMenu | HakcMenu.WarezShape, HakcMenu.WarezWidths |
