module Catalogue {

  /** One barcode entry: the exact text encoded, the short label printed under it (`caption`;
      `label` is a Dafny keyword) and a description. */
  datatype VimOp = VimOp(code: string, caption: string, description: string)

  /** The fixed catalogue, in drawing order. */
  const VimOps: seq<VimOp> := [
    VimOp(":w", ":w", "Write current file"),
    VimOp(":wa", ":wa", "Write all files"),
    VimOp(":q", ":q", "Quit (fails if unsaved)"),
    VimOp(":wq", ":wq", "Write & quit"),
    VimOp(":wqa", ":wqa", "Write & quit all"),
    VimOp(":x", ":x", "Write if changed & quit"),
    VimOp(":q!", ":q!", "Force quit without saving"),
    VimOp(":w!", ":w!", "Force write (read-only files)"),
    VimOp(":e!", ":e!", "Reload file (discard changes)"),
    VimOp(":up", ":up", "Write only if buffer changed"),
    VimOp(":w ++ff=unix", ":w ++ff=unix", "Write with Unix fileformat"),
    VimOp(":w ++ff=dos", ":w ++ff=dos", "Write with DOS fileformat"),
    VimOp(":!sudo tee %", ":!sudo tee %", "Write as root via sudo tee"),
    VimOp(":ls", ":ls", "List buffers"),
    VimOp(":bnext", ":bnext", "Next buffer"),
    VimOp(":bprev", ":bprev", "Previous buffer"),
    VimOp(":bfirst", ":bfirst", "First buffer"),
    VimOp(":blast", ":blast", "Last buffer"),
    VimOp(":b#", ":b#", "Alternate buffer"),
    VimOp(":bd", ":bd", "Delete current buffer"),
    VimOp(":bufdo wqa", ":bufdo wqa", "Write & quit all buffers"),
    VimOp(":edit .", ":edit .", "Open file explorer (netrw)"),
    VimOp(":Explore", ":Explore", "Netrw file explorer"),
    VimOp(":Hexplore", ":Hexplore", "Horizontal explorer split"),
    VimOp(":Vexplore", ":Vexplore", "Vertical explorer split"),
    VimOp(":sp", ":sp", "Horizontal split"),
    VimOp(":vsp", ":vsp", "Vertical split"),
    VimOp(":only", ":only", "Close all other windows"),
    VimOp(":close", ":close", "Close current window"),
    VimOp(":new", ":new", "New empty window"),
    VimOp(":vnew", ":vnew", "New empty vertical split"),
    VimOp(":wincmd = ", ":wincmd =", "Equalize split sizes"),
    VimOp(":wincmd H", ":wincmd H", "Move window to far left"),
    VimOp(":wincmd J", ":wincmd J", "Move window to bottom"),
    VimOp(":wincmd K", ":wincmd K", "Move window to top"),
    VimOp(":wincmd L", ":wincmd L", "Move window to far right"),
    VimOp(":tabnew", ":tabnew", "New tab"),
    VimOp(":tabclose", ":tabclose", "Close current tab"),
    VimOp(":tabonly", ":tabonly", "Close all other tabs"),
    VimOp(":tabnext", ":tabnext", "Next tab"),
    VimOp(":tabprev", ":tabprev", "Previous tab"),
    VimOp(":tabmove 0", ":tabmove 0", "Move tab to front"),
    VimOp(":tabmove$", ":tabmove$", "Move tab to end"),
    VimOp(":noh", ":noh", "Clear search highlight"),
    VimOp(":set hlsearch", "hlsearch", "Highlight all search matches"),
    VimOp(":set nohlsearch", "nohlsearch", "Disable search highlight"),
    VimOp(":set incsearch", "incsearch", "Incremental search"),
    VimOp(":set noincsearch", "noincsearch", "Disable incremental search"),
    VimOp(":set ignorecase", "ignorecase", "Case-insensitive search"),
    VimOp(":set noignorecase", "noignorecase", "Case-sensitive search"),
    VimOp(":set smartcase", "smartcase", "Smart case search"),
    VimOp(":set nosmartcase", "nosmartcase", "Disable smart case"),
    VimOp(":set autoindent", "autoindent", "Enable auto indent"),
    VimOp(":set noautoindent", "noautoindent", "Disable auto indent"),
    VimOp(":set smartindent", "smartindent", "Enable smart indent"),
    VimOp(":set nosmartindent", "nosmartindent", "Disable smart indent"),
    VimOp(":set expandtab", "expandtab", "Convert tabs to spaces"),
    VimOp(":set noexpandtab", "noexpandtab", "Keep literal tabs"),
    VimOp(":set tabstop=2", "ts=2", "Tab width = 2"),
    VimOp(":set tabstop=4", "ts=4", "Tab width = 4"),
    VimOp(":set shiftwidth=2", "sw=2", "Indent width = 2"),
    VimOp(":set shiftwidth=4", "sw=4", "Indent width = 4"),
    VimOp(":set softtabstop=2", "sts=2", "Soft tabstop = 2"),
    VimOp(":set softtabstop=4", "sts=4", "Soft tabstop = 4"),
    VimOp(":retab", ":retab", "Convert indentation to current settings"),
    VimOp(":set background=dark", "bg=dark", "Dark background"),
    VimOp(":set background=light", "bg=light", "Light background"),
    VimOp(":set number", "number", "Show line numbers"),
    VimOp(":set nonumber", "nonumber", "Hide line numbers"),
    VimOp(":set relativenumber", "relativenumber", "Relative line numbers"),
    VimOp(":set norelativenumber", "norelativenumber", "Disable relative numbers"),
    VimOp(":set cursorline", "cursorline", "Highlight current line"),
    VimOp(":set nocursorline", "nocursorline", "Disable line highlight"),
    VimOp(":set list", "list", "Show invisible chars"),
    VimOp(":set nolist", "nolist", "Hide invisible chars"),
    VimOp(":set wrap", "wrap", "Wrap long lines"),
    VimOp(":set nowrap", "nowrap", "No wrap; horizontal scroll"),
    VimOp(":set colorcolumn=80", "cc=80", "Mark column 80"),
    VimOp(":set colorcolumn=", "cc=", "Clear colorcolumn"),
    VimOp(":set showmatch", "showmatch", "Briefly jump to matching bracket"),
    VimOp(":set noshowmatch", "noshowmatch", "Disable showmatch"),
    VimOp(":set ruler", "ruler", "Show cursor position"),
    VimOp(":set noruler", "noruler", "Hide ruler"),
    VimOp(":set showcmd", "showcmd", "Show partial commands"),
    VimOp(":set noshowcmd", "noshowcmd", "Hide partial commands"),
    VimOp(":set spell", "spell", "Enable spell checking"),
    VimOp(":set nospell", "nospell", "Disable spell checking"),
    VimOp(":set spelllang=en_au", "spelllang=en_au", "Set spell lang to en_au"),
    VimOp(":set spelllang=en_gb", "spelllang=en_gb", "Set spell lang to en_gb"),
    VimOp(":set mouse=a", "mouse=a", "Enable mouse in all modes"),
    VimOp(":set mouse=", "mouse=", "Disable mouse"),
    VimOp(":set paste", "paste", "Enable paste mode"),
    VimOp(":set nopaste", "nopaste", "Disable paste mode"),
    VimOp(":set clipboard=unnamedplus", "clipboard=unnamedplus", "Use system clipboard"),
    VimOp(":set clipboard=", "clipboard=", "Use default Vim registers"),
    VimOp(":set foldmethod=indent", "fold=indent", "Fold by indent level"),
    VimOp(":set foldmethod=manual", "fold=manual", "Manual folding"),
    VimOp(":set foldenable", "foldenable", "Enable folding"),
    VimOp(":set nofoldenable", "nofoldenable", "Disable folding"),
    VimOp(":%s/old/new/g", ":%s/old/new/g", "Substitute in whole file"),
    VimOp(":%s/old/new/gc", ":%s/old/new/gc", "Substitute with confirm"),
    VimOp(":%s/\\s\\+$//e", ":%s/\\s\\+$//e", "Strip trailing whitespace"),
    VimOp(":g/DEBUG/d", ":g/DEBUG/d", "Delete all lines containing DEBUG"),
    VimOp(":vimgrep /TODO/ **/*", ":vimgrep /TODO/ **/*", "Search TODO in project"),
    VimOp(":copen", ":copen", "Open quickfix window"),
    VimOp(":cclose", ":cclose", "Close quickfix window")
  ]
}
